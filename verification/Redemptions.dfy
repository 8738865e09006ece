/** Every one-time ticket that a session cost was good when it was taken: the challenge was in its
    table and had been found unexpired, the one-time code was above the recorded counter, the
    recovery slot held a digest, the pairing was pending and unexpired. */
module Redemptions {
  import opened Store
  import SR = StoreRuns
  import L = StoreLaws
  import opened Handlers
  import opened Credentials
  import opened OneTimeUse

  /** The ticket can be taken. */
  predicate Good(c: SR.Core, x: Ticket) {
    match x
    case ChallengeTicket(t) => t in c.db.challenges
    case TotpTicket(id, n) => id in c.db.users && c.db.users[id].totpLastCounter < n
    case CodeTicket(id, slot) =>
      && id in c.db.users && c.db.users[id].recoveryCodes.Codes?
      && slot < |c.db.users[id].recoveryCodes.digests| && c.db.users[id].recoveryCodes.digests[slot] != ""
    case PairingTicket(s) =>
      s in c.db.pairings && c.db.pairings[s].status == "pending" && c.now < c.db.pairings[s].expiresAt
  }

  /** Step `n` found challenge `t` unexpired. */
  predicate FoundAt(tr: seq<System>, acts: seq<Action>, n: nat, t: Token) {
    && n < |acts| && n < |tr| && acts[n].MfaSelect? && acts[n].token == t
    && t in tr[n].core.db.challenges && tr[n].core.now < tr[n].core.db.challenges[t].expiresAt
  }

  ghost predicate FoundBefore(tr: seq<System>, acts: seq<Action>, k: nat, t: Token) {
    exists n :: 0 <= n < k && FoundAt(tr, acts, n, t)
  }

  /** Step `m` took a ticket that was good. */
  ghost predicate TakenAt(tr: seq<System>, acts: seq<Action>, m: nat, x: Ticket) {
    && m < |acts| && m < |tr| && Can(tr[m], acts[m]) && x in Acquired(tr[m], acts[m]) && Good(tr[m].core, x)
    && (x.ChallengeTicket? ==> FoundBefore(tr, acts, m, x.token))
  }

  ghost predicate TakenBefore(tr: seq<System>, acts: seq<Action>, k: nat, x: Ticket) {
    exists m :: 0 <= m < k && TakenAt(tr, acts, m, x)
  }

  // ----- one step ------------------------------------------------------------------------

  /** What a step takes was good, and the write that takes it leaves exactly the mark it should. */
  lemma TakingIsExact(s: System, act: Action, x: Ticket)
    requires Can(s, act) && x in Acquired(s, act)
    ensures Good(s.core, x)
    ensures var db := Next(s, act).core.db;
            match x
            case ChallengeTicket(t) => t !in db.challenges
            case TotpTicket(id, n) => id in db.users && db.users[id] == s.core.db.users[id].(totpLastCounter := n)
            case CodeTicket(id, slot) =>
              && id in db.users
              && db.users[id] ==
                 s.core.db.users[id].(recoveryCodes := Codes(s.core.db.users[id].recoveryCodes.digests[slot := ""]))
            case PairingTicket(p) =>
              act.PairConsume? && p in db.pairings
              && db.pairings[p] == s.core.db.pairings[p].(status := "consumed", device := act.device)
  {
    NextCore(s, act);
    TakerWrites(s, act, x);
    var op := EventOf(s, act).op;
    L.SucceedsIffAccepted(s.core.db, op);
    match x {
      case ChallengeTicket(t) => L.ChallengeRowAfter(s.core.db, op, t);
      case TotpTicket(id, _) => L.UserRowAfter(s.core.db, op, id);
      case CodeTicket(id, _) => L.UserRowAfter(s.core.db, op, id);
      case PairingTicket(p) => L.PairingRowAfter(s.core.db, op, {}, p);
    }
    SR.WriteIsExec(s.core, EventOf(s, act));
    hide Exec, Ready, EventOf, Next, Acquired, L.NameFree, NameTaken, CodeTaken;
  }

  /** The write that takes a ticket. */
  lemma TakerWrites(s: System, act: Action, x: Ticket)
    requires Can(s, act) && x in Acquired(s, act)
    ensures !act.Env? && EventOf(s, act).Write? && EventOf(s, act).late == {}
    ensures Exec(s.core.db, EventOf(s, act).op).1 == Ok
    ensures var op := EventOf(s, act).op;
            match x
            case ChallengeTicket(t) => op == DeleteMfaChallenge(t)
            case TotpTicket(id, n) => op == SpendTotpCounter(id, n)
            case CodeTicket(id, slot) =>
              && op.UpdateRecoveryCodes? && op.id == id && op.oldCodes.Codes? && slot < |op.oldCodes.digests|
              && op.oldCodes.digests[slot] != "" && op.newCodes == Codes(op.oldCodes.digests[slot := ""])
            case PairingTicket(p) => act.PairConsume? && op == ConsumePairing(p, act.device, s.core.now)
  {
    hide Exec, SR.Enabled, SR.Next, OpenWhileRestricted, HandlerOnly;
  }

  ghost predicate Redeemed(tr: seq<System>, acts: seq<Action>, k: nat)
    requires k < |tr|
  {
    && (forall a :: a in tr[k].actors && tr[k].actors[a].MfaSelected? ==>
          FoundBefore(tr, acts, k, tr[k].actors[a].challenge))
    && (forall a, x :: a in tr[k].actors && x in Held(tr[k].actors[a]) ==> TakenBefore(tr, acts, k, x))
    && (forall t, x :: t in tr[k].grants && x in tr[k].grants[t].tickets ==>
          TakenBefore(tr, acts, tr[k].grants[t].at, x))
  }

  lemma StepSelected(tr: seq<System>, acts: seq<Action>, k: nat, a: ActorId)
    requires Run(tr, acts) && k < |acts| && Redeemed(tr, acts, k)
    requires a in tr[k + 1].actors && tr[k + 1].actors[a].MfaSelected?
    ensures FoundBefore(tr, acts, k + 1, tr[k + 1].actors[a].challenge)
  {
    var act := acts[k];
    assert Can(tr[k], act) && tr[k + 1] == Next(tr[k], act);
    NextActor(tr[k], act, a);
    if !act.Env? && a == act.a {
      SelectFinds(tr[k], act);
      assert FoundAt(tr, acts, k, act.token);
    }
    hide Run, Can, Next, After, FoundAt, Held;
  }

  lemma SelectFinds(s: System, act: Action)
    requires Ready(s, act) && !act.Env? && After(s, act).Some? && After(s, act).value.MfaSelected?
    ensures act.MfaSelect? && After(s, act).value.challenge == act.token
    ensures act.token in s.core.db.challenges && s.core.now < s.core.db.challenges[act.token].expiresAt
  {
  }

  lemma TakenNow(tr: seq<System>, acts: seq<Action>, k: nat, x: Ticket)
    requires Run(tr, acts) && k < |acts| && Redeemed(tr, acts, k) && Can(tr[k], acts[k])
    requires x in Acquired(tr[k], acts[k])
    ensures TakenAt(tr, acts, k, x)
  {
    TakingIsExact(tr[k], acts[k], x);
    if x.ChallengeTicket? {
      DeleterHasSelected(tr[k], acts[k], x);
    }
    hide Run, Can, Next, Acquired, Good, FoundBefore;
  }

  lemma DeleterHasSelected(s: System, act: Action, x: Ticket)
    requires Ready(s, act) && x in Acquired(s, act) && x.ChallengeTicket?
    ensures !act.Env? && act.a in s.actors && s.actors[act.a].MfaSelected? && s.actors[act.a].challenge == x.token
  {
  }

  lemma TakenLater(tr: seq<System>, acts: seq<Action>, k: nat, m: nat, x: Ticket)
    requires TakenBefore(tr, acts, k, x) && k <= m
    ensures TakenBefore(tr, acts, m, x)
  {
    hide TakenAt;
  }

  lemma StepHeld(tr: seq<System>, acts: seq<Action>, k: nat, a: ActorId, x: Ticket)
    requires Run(tr, acts) && k < |acts| && Redeemed(tr, acts, k)
    requires a in tr[k + 1].actors && x in Held(tr[k + 1].actors[a])
    ensures TakenBefore(tr, acts, k + 1, x)
  {
    var act := acts[k];
    assert Can(tr[k], act) && tr[k + 1] == Next(tr[k], act);
    TicketSource(tr[k], act, Handler(a), x);
    hide Run, Can, Next, Acquired, Held, TakenAt, FoundBefore;
    if x in Tickets(tr[k], Handler(a)) {
      TakenLater(tr, acts, k, k + 1, x);
    } else {
      TakenNow(tr, acts, k, x);
    }
  }

  lemma StepGranted(tr: seq<System>, acts: seq<Action>, k: nat, t: Token, x: Ticket)
    requires Run(tr, acts) && k < |acts| && Redeemed(tr, acts, k) && tr[k].step == k
    requires t in tr[k + 1].grants && x in tr[k + 1].grants[t].tickets
    ensures TakenBefore(tr, acts, tr[k + 1].grants[t].at, x)
  {
    var act := acts[k];
    assert Can(tr[k], act) && tr[k + 1] == Next(tr[k], act);
    GrantsAfter(tr[k], act);
    hide Run, Can, Next, Held, TakenBefore, FoundBefore, NewGrant;
    if (act.IssueSession? || act.LoginChallenge?) && act.token == t {
      assert x in Held(tr[k].actors[act.a]);
    }
  }

  lemma GrantsAfter(s: System, act: Action)
    requires Can(s, act)
    ensures act.IssueSession? || act.LoginChallenge? ==>
              && act.a in s.actors && Next(s, act).grants == s.grants[act.token := NewGrant(s, act)]
              && NewGrant(s, act).at == s.step && NewGrant(s, act).tickets == Held(s.actors[act.a])
    ensures !act.IssueSession? && !act.LoginChallenge? ==> Next(s, act).grants == s.grants
  {
    hide Exec, Apply, SR.Next, SR.Enabled, EventOf, After, Held, HandlerOnly;
  }

  // ----- whole runs ------------------------------------------------------------------------

  lemma {:induction false} AlwaysRedeemed(tr: seq<System>, acts: seq<Action>, k: nat)
    requires Run(tr, acts) && k < |tr|
    ensures Redeemed(tr, acts, k)
  {
    hide Exec, SR.Next, SR.Enabled, Next, Ready, EventOf, After, TakenBefore, FoundBefore, Held;
    if k > 0 {
      AlwaysRedeemed(tr, acts, k - 1);
      StepIsIndex(tr, acts, k - 1);
      forall a | a in tr[k].actors && tr[k].actors[a].MfaSelected?
        ensures FoundBefore(tr, acts, k, tr[k].actors[a].challenge)
      {
        StepSelected(tr, acts, k - 1, a);
      }
      forall a, x | a in tr[k].actors && x in Held(tr[k].actors[a])
        ensures TakenBefore(tr, acts, k, x)
      {
        StepHeld(tr, acts, k - 1, a, x);
      }
      forall t, x | t in tr[k].grants && x in tr[k].grants[t].tickets
        ensures TakenBefore(tr, acts, tr[k].grants[t].at, x)
      {
        StepGranted(tr, acts, k - 1, t, x);
      }
    }
  }

  /** Whatever a session cost was taken before its insert, and was good when it was taken. */
  lemma TicketsWereGood(tr: seq<System>, acts: seq<Action>, k: nat, t: Token, x: Ticket)
    requires Run(tr, acts) && k < |tr| && t in tr[k].grants && x in tr[k].grants[t].tickets
    ensures TakenBefore(tr, acts, tr[k].grants[t].at, x)
  {
    hide Run, TakenBefore, FoundBefore;
    AlwaysRedeemed(tr, acts, k);
  }
}
