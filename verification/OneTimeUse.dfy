/** Everything that may be used once is used once: MFA challenges, one-time code counters,
    recovery-code slots and device pairings, under any number of concurrent users of them. */
module OneTimeUse {
  import opened Store
  import SR = StoreRuns
  import opened Handlers
  import opened Credentials

  /** The ticket can no longer be taken: its challenge or pairing is gone or consumed, its
      counter is not above the recorded one, its slot is blank, or its user is gone for good. */
  ghost predicate Spent(c: SR.Core, x: Ticket) {
    match x
    case ChallengeTicket(t) => t in c.tokens && t !in c.db.challenges
    case TotpTicket(id, n) => id in c.ids && (id in c.db.users ==> n <= c.db.users[id].totpLastCounter)
    case CodeTicket(id, slot) =>
      id in c.ids && (id in c.db.users ==> SR.BlankAt(c.db.users[id].recoveryCodes, slot))
    case PairingTicket(s) => s in c.secrets && (s in c.db.pairings ==> c.db.pairings[s].status != PENDING)
  }

  /** The tickets a step takes. */
  function Acquired(s: System, act: Action): set<Ticket>
    requires Ready(s, act)
  {
    match act
    case MfaDelete(a) => {ChallengeTicket(s.actors[a].challenge)}
    case MfaTotp(a, counter) => {TotpTicket(s.actors[a].id, counter)}
    case MfaRecovery(a, slot, _) => {CodeTicket(s.actors[a].id, slot)}
    case PairConsume(a, _) => {PairingTicket(s.actors[a].secret)}
    case _ => {}
  }

  /** The step does not put an entry back into the slot of a recovery code that is spent. */
  predicate Leaves(s: System, act: Action, x: Ticket)
    requires Ready(s, act)
  {
    x.CodeTicket? ==> SR.KeepsBlank(s.core, EventOf(s, act), x.id, x.slot)
  }

  /** Nor does any step between states `i` and `k`. */
  ghost predicate LeavesThroughout(tr: seq<System>, acts: seq<Action>, x: Ticket, i: nat, k: nat)
    requires Run(tr, acts) && k <= |acts|
  {
    forall n :: i <= n < k ==> Leaves(tr[n], acts[n], x)
  }

  // ----- one step --------------------------------------------------------------------------

  lemma AcquiredFresh(s: System, act: Action, x: Ticket)
    requires Can(s, act) && SR.Recorded(s.core) && x in Acquired(s, act)
    ensures !Spent(s.core, x)
    ensures Spent(Next(s, act).core, x)
  {
  }

  /** A compare-and-swap that leaves the blank slots of the list blank. */
  ghost predicate OnlyBlanks(op: StoreOp) {
    op.UpdateRecoveryCodes? ==> forall slot :: SR.BlankAt(op.oldCodes, slot) ==> SR.BlankAt(op.newCodes, slot)
  }

  lemma SpentCodeStep(c: SR.Core, e: SR.Event, x: Ticket)
    requires SR.Recorded(c) && SR.Enabled(c, e) && (e.Write? ==> OnlyBlanks(e.op))
    requires x.CodeTicket? && Spent(c, x)
    ensures Spent(SR.Next(c, e), x) <==> SR.KeepsBlank(c, e, x.id, x.slot)
  {
    SR.StepGrows(c, e);
    hide Exec, Apply, SR.Recorded, SR.Next, SR.Enabled;
    if SR.Updates(c, e, x.id) {
      SR.UpdateWrites(c, e, x.id);
    }
    if x.id in SR.Next(c, e).db.users {
      SR.StepCodes(c, e, x.id);
    }
  }

  lemma SpentCodeStays(s: System, act: Action, x: Ticket)
    requires Can(s, act) && SR.Recorded(s.core) && x.CodeTicket? && Spent(s.core, x)
    ensures Spent(Next(s, act).core, x) <==> Leaves(s, act, x)
  {
    NextCore(s, act);
    WriterOf(s, act);
    hide Exec, Apply, SR.Recorded, SR.Next, SR.Enabled, Ready, EventOf, Next, Spent, SR.KeepsBlank;
    SpentCodeStep(s.core, EventOf(s, act), x);
  }

  lemma SpentStays(s: System, act: Action, x: Ticket)
    requires Can(s, act) && SR.Recorded(s.core) && Spent(s.core, x)
    ensures Spent(Next(s, act).core, x) <==> Leaves(s, act, x)
  {
    if x.CodeTicket? {
      SpentCodeStays(s, act, x);
    } else {
      var e := EventOf(s, act);
      SR.StepSessions(s.core, e);
      SR.StepChallenges(s.core, e);
      SR.StepUsers(s.core, e);
      hide Exec, Apply, SR.Recorded, SR.Next, SR.Enabled, After, SR.SessionsFollow, Ready, EventOf;
    }
  }

  // ----- whole runs --------------------------------------------------------------------------

  /** What is spent stays spent, whatever the run does, but for one thing: the slot of a
      recovery code stays spent if and only if no profile update of its user carries a
      nonblank, missing or unreadable entry there. */
  lemma {:induction false} SpentForGood(tr: seq<System>, acts: seq<Action>, i: nat, k: nat, x: Ticket)
    requires Run(tr, acts) && i <= k < |tr| && Spent(tr[i].core, x)
    ensures (forall j :: i <= j <= k ==> Spent(tr[j].core, x)) <==> LeavesThroughout(tr, acts, x, i, k)
  {
    hide Exec, SR.Next, SR.Enabled, SR.Recorded, Next, Ready, EventOf, After, Sound, Spent, Leaves;
    if i < k {
      SpentForGood(tr, acts, i, k - 1, x);
      if forall j :: i <= j <= k - 1 ==> Spent(tr[j].core, x) {
        AlwaysSound(tr, acts, k - 1);
        assert Can(tr[k - 1], acts[k - 1]) && tr[k] == Next(tr[k - 1], acts[k - 1]);
        SpentStays(tr[k - 1], acts[k - 1], x);
      } else {
        assert !LeavesThroughout(tr, acts, x, i, k - 1);
      }
    }
  }

  /** No ticket is taken twice: each MFA challenge is consumed at most once even when the
      selects and deletes of its consumers interleave, each counter is accepted at most once,
      each pairing is verified at most once, and each recovery slot is redeemed at most once
      as long as no profile update in between puts an entry back into it. */
  lemma TicketTakenOnce(tr: seq<System>, acts: seq<Action>, i: nat, j: nat, x: Ticket)
    requires Run(tr, acts) && i < j < |acts| && LeavesThroughout(tr, acts, x, i + 1, j)
    requires Can(tr[i], acts[i]) && x in Acquired(tr[i], acts[i])
    ensures Can(tr[j], acts[j]) && x !in Acquired(tr[j], acts[j])
  {
    hide Exec, SR.Next, SR.Enabled, SR.Recorded, Next, Ready, EventOf, After, Sound, Spent, Acquired, Leaves;
    assert Can(tr[j], acts[j]) && tr[i + 1] == Next(tr[i], acts[i]);
    AlwaysSound(tr, acts, i);
    AcquiredFresh(tr[i], acts[i], x);
    SpentForGood(tr, acts, i + 1, j, x);
    if x in Acquired(tr[j], acts[j]) {
      AlwaysSound(tr, acts, j);
      AcquiredFresh(tr[j], acts[j], x);
    }
  }

  // ----- one ticket, one session -----------------------------------------------------------------

  /** Who has used up tickets: handlers under way, and granted tokens. */
  datatype Holder = Handler(a: ActorId) | Granted(t: Token)

  function Tickets(s: System, h: Holder): set<Ticket> {
    match h
    case Handler(a) => if a in s.actors then Held(s.actors[a]) else {}
    case Granted(t) => if t in s.grants then s.grants[t].tickets else {}
  }

  /** A ticket that someone has used up is spent, and nobody else has used it up. */
  ghost predicate Accounted(s: System, x: Ticket) {
    && (forall h :: x in Tickets(s, h) ==> Spent(s.core, x))
    && (forall h, h' :: h != h' && x in Tickets(s, h) ==> x !in Tickets(s, h'))
  }

  /** Up to state `k` no profile update puts an entry back into the slot of a recovery code
      while a handler or a session has used it up. */
  ghost predicate NotRestored(tr: seq<System>, acts: seq<Action>, x: Ticket, k: nat)
    requires Run(tr, acts) && k <= |acts|
  {
    forall n, h :: 0 <= n < k && x in Tickets(tr[n], h) ==> Leaves(tr[n], acts[n], x)
  }

  /** Where the tickets of a holder after a step come from. */
  lemma TicketSource(s: System, act: Action, h: Holder, x: Ticket)
    requires Can(s, act) && x in Tickets(Next(s, act), h)
    ensures || x in Tickets(s, h)
            || (!act.Env? && h == Handler(act.a) && x in Acquired(s, act))
            || (act.IssueSession? && h == Granted(act.token) && x in Tickets(s, Handler(act.a)))
    ensures act.IssueSession? ==> h != Handler(act.a)
  {
    hide Exec, SR.Next, SR.Enabled, PasswordHolds, HandlerOnly, OpenWhileRestricted, Matches;
  }

  lemma StepAccounted(s: System, act: Action, x: Ticket)
    requires Can(s, act) && SR.Recorded(s.core) && Accounted(s, x)
    requires forall h :: x in Tickets(s, h) ==> Leaves(s, act, x)
    ensures Accounted(Next(s, act), x)
  {
    hide Exec, SR.Next, SR.Enabled, SR.Recorded, Leaves, Ready, EventOf, After, Spent, Acquired, Tickets, Next;
    var d := Next(s, act);
    forall h | x in Tickets(d, h)
      ensures Spent(d.core, x)
    {
      TicketSource(s, act, h, x);
      if x in Acquired(s, act) {
        AcquiredFresh(s, act, x);
      } else {
        SpentStays(s, act, x);
      }
    }
    forall h, h' | h != h' && x in Tickets(d, h)
      ensures x !in Tickets(d, h')
    {
      TicketSource(s, act, h, x);
      if x in Tickets(d, h') {
        TicketSource(s, act, h', x);
        if x in Acquired(s, act) {
          AcquiredFresh(s, act, x);
        }
      }
    }
  }

  lemma {:induction false} AlwaysAccounted(tr: seq<System>, acts: seq<Action>, k: nat, x: Ticket)
    requires Run(tr, acts) && k < |tr| && NotRestored(tr, acts, x, k)
    ensures Accounted(tr[k], x)
  {
    hide Exec, SR.Next, SR.Enabled, SR.Recorded, Leaves, Next, Ready, EventOf, After, Sound, Spent;
    if k > 0 {
      AlwaysAccounted(tr, acts, k - 1, x);
      AlwaysSound(tr, acts, k - 1);
      assert Can(tr[k - 1], acts[k - 1]) && tr[k] == Next(tr[k - 1], acts[k - 1]);
      StepAccounted(tr[k - 1], acts[k - 1], x);
    }
  }

  /** Two sessions never cost the same challenge, the same one-time code or the same pairing,
      in any run; nor the same recovery slot, unless a profile update put an entry back into
      it while a handler or a session had used it up. */
  lemma OneTicketOneSession(tr: seq<System>, acts: seq<Action>, k: nat, t: Token, t': Token, x: Ticket)
    requires Run(tr, acts) && k < |tr| && t != t' && t in tr[k].grants && t' in tr[k].grants
    requires x in tr[k].grants[t].tickets && (x.CodeTicket? ==> NotRestored(tr, acts, x, k))
    ensures x !in tr[k].grants[t'].tickets && Spent(tr[k].core, x)
  {
    assert !x.CodeTicket? ==> NotRestored(tr, acts, x, k);
    hide Run, NotRestored, Spent;
    AlwaysAccounted(tr, acts, k, x);
    assert x in Tickets(tr[k], Granted(t)) && Granted(t) != Granted(t');
    assert x !in Tickets(tr[k], Granted(t'));
  }
}
