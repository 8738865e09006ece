/** Recovery codes: the list of digests, redeeming one by blanking its slot, and what any
    number of concurrent redeemers leave of a list. */
module RecoveryCodes {
  import opened Options
  import opened Store
  import SR = StoreRuns
  import opened Handlers
  import opened Credentials
  import opened OneTimeUse
  import opened Grants

  /** How many codes of a list are still good. */
  function Nonblank(digests: seq<string>): nat {
    if digests == [] then 0 else (if digests[0] != "" then 1 else 0) + Nonblank(digests[1..])
  }

  lemma {:induction false} BlankingCostsOne(digests: seq<string>, slot: nat)
    requires slot < |digests| && digests[slot] != ""
    ensures Nonblank(Blank(digests, slot)) == Nonblank(digests) - 1
  {
    if slot > 0 {
      assert Blank(digests, slot)[1..] == Blank(digests[1..], slot - 1);
      BlankingCostsOne(digests[1..], slot - 1);
    } else {
      assert Blank(digests, slot)[1..] == digests[1..];
    }
  }

  /** What recoverycode.MatchCode promises for the digest of the normalised candidate. */
  ghost predicate Lawful(matchCode: (string, seq<string>) -> Option<nat>, digest: string -> string) {
    forall code, ds ::
      match matchCode(code, ds)
      case Some(i) => i < |ds| && digest(code) != "" && ds[i] == digest(code)
      case None => digest(code) == "" || digest(code) !in ds
  }

  /** RedeemRecoveryCode: blanks the slot that matches what the user typed, in place. */
  method RedeemRecoveryCode(candidate: string, stored: CodeList,
                            matchCode: (string, seq<string>) -> Option<nat>, ghost digest: string -> string)
    returns (updated: Option<CodeList>)
    requires Lawful(matchCode, digest)
    ensures updated.Some? <==> stored.Codes? && digest(candidate) != "" && digest(candidate) in stored.digests
    ensures updated.Some? ==>
              && updated.value.Codes? && |updated.value.digests| == |stored.digests|
              && Nonblank(updated.value.digests) == Nonblank(stored.digests) - 1
              && exists slot: nat :: Matches(stored, slot, digest(candidate)) &&
                   forall j :: 0 <= j < |stored.digests| && j != slot ==> updated.value.digests[j] == stored.digests[j]
  {
    match stored
    case Unreadable(_) =>
      updated := None;
    case Codes(digests) =>
      var found := matchCode(candidate, digests);
      if found.None? {
        return None;
      }
      var i := found.value;
      assert Matches(stored, i, digest(candidate));
      BlankingCostsOne(digests, i);
      updated := Some(Codes(digests[i := ""]));
  }

  /** GenerateRecoveryCodes: one digest per code, in order; a count that is not positive means eight. */
  method GenerateRecoveryCodes(count: int, generate: nat -> seq<string>, digest: string -> string)
    returns (codes: seq<string>, stored: CodeList)
    requires forall n: nat :: |generate(n)| == n
    requires forall c :: digest(c) != ""
    ensures stored.Codes? && |codes| == |stored.digests| == (if count <= 0 then 8 else count)
    ensures forall i :: 0 <= i < |codes| ==> stored.digests[i] == digest(codes[i])
    ensures forall i :: 0 <= i < |codes| ==> multiset(stored.digests)[digest(codes[i])] > 0
    ensures Nonblank(stored.digests) == |codes|
  {
    var n: nat := if count <= 0 then 8 else count;
    codes := generate(n);
    var digests := [];
    for i := 0 to |codes|
      invariant |digests| == i
      invariant forall j :: 0 <= j < i ==> digests[j] == digest(codes[j])
    {
      digests := digests + [digest(codes[i])];
    }
    AllNonblank(digests);
    assert forall i :: 0 <= i < |codes| ==> digests[i] in multiset(digests);
    stored := Codes(digests);
  }

  lemma {:induction false} AllNonblank(digests: seq<string>)
    requires forall i :: 0 <= i < |digests| ==> digests[i] != ""
    ensures Nonblank(digests) == |digests|
  {
    if digests != [] {
      AllNonblank(digests[1..]);
    }
  }

  /** A code can be redeemed exactly as often as its digest is stored: it matches while a copy is
      left, and redeeming it takes one copy and leaves the copies of every other code.  So of a
      generated list with distinct digests each code is good once. */
  lemma RedeemableAsOftenAsStored(code: string, digests: seq<string>, digest: string -> string,
                                  matchCode: (string, seq<string>) -> Option<nat>)
    requires Lawful(matchCode, digest)
    ensures matchCode(code, digests).Some? <==> digest(code) != "" && multiset(digests)[digest(code)] > 0
    ensures matchCode(code, digests).Some? ==>
              var slot := matchCode(code, digests).value;
              && slot < |digests|
              && multiset(Blank(digests, slot))[digest(code)] == multiset(digests)[digest(code)] - 1
              && forall x :: x != "" && x != digest(code) ==>
                   multiset(Blank(digests, slot))[x] == multiset(digests)[x]
  {
    assert digest(code) in digests <==> digest(code) in multiset(digests);
    if matchCode(code, digests).Some? {
      var slot := matchCode(code, digests).value;
      assert multiset(Blank(digests, slot)) == multiset(digests) - multiset{digest(code)} + multiset{""};
    }
  }

  // ----- concurrent redeemers -------------------------------------------------------------------

  /** The step is a successful redemption by `id`. */
  predicate Redeems(s: System, act: Action, id: UserId) {
    Can(s, act) && act.MfaRecovery? && s.actors[act.a].id == id
  }

  /** The slots of `id` redeemed between states `i` and `k`, in commit order. */
  ghost function Redeemed(tr: seq<System>, acts: seq<Action>, i: nat, k: nat, id: UserId): seq<nat>
    requires Run(tr, acts) && i <= k < |tr|
    decreases k
  {
    if i == k then []
    else
      Redeemed(tr, acts, i, k - 1, id) +
      (if Redeems(tr[k - 1], acts[k - 1], id) then [acts[k - 1].slot] else [])
  }

  ghost predicate Distinct(slots: seq<nat>) {
    forall x, y :: 0 <= x < y < |slots| ==> slots[x] != slots[y]
  }

  /** `now` is `before` with exactly the slots of `used` blanked, each of them once good. */
  ghost predicate Balanced(before: seq<string>, now: seq<string>, used: seq<nat>) {
    && |now| == |before|
    && Distinct(used)
    && (forall s :: s in used ==> s < |before| && before[s] != "")
    && (forall s :: 0 <= s < |before| ==> now[s] == if s in used then "" else before[s])
    && |used| + Nonblank(now) == Nonblank(before)
  }

  lemma BalancedStep(before: seq<string>, now: seq<string>, used: seq<nat>, slot: nat)
    requires Balanced(before, now, used) && slot < |now| && now[slot] != ""
    ensures Balanced(before, Blank(now, slot), used + [slot])
  {
    BlankingCostsOne(now, slot);
    assert slot !in used;
  }

  /** What a step may do to the list of `id`: a successful redemption blanks one good slot,
      anything else leaves the list alone. */
  ghost predicate ListStep(s: System, act: Action, d: System, id: UserId)
    requires id in s.core.db.users && id in d.core.db.users
  {
    var was, after := s.core.db.users[id].recoveryCodes, d.core.db.users[id].recoveryCodes;
    if Redeems(s, act, id) then
      && was.Codes? && act.slot < |was.digests| && was.digests[act.slot] != ""
      && after == Codes(Blank(was.digests, act.slot))
    else after == was
  }

  lemma StepList(s: System, act: Action, id: UserId)
    requires Can(s, act) && SR.Recorded(s.core) && SR.KeepsCodes(s.core, EventOf(s, act), id)
    requires id in s.core.ids && id in Next(s, act).core.db.users
    ensures id in s.core.db.users && ListStep(s, act, Next(s, act), id)
  {
    var e := EventOf(s, act);
    NextCore(s, act);
    WriterOf(s, act);
    RedeemsMeansSwaps(s, act, id);
    hide Exec, Apply, SR.Recorded, SR.Next, SR.Enabled, Ready, EventOf, Next, Redeems;
    SR.StepCodes(s.core, e, id);
  }

  lemma RedeemsMeansSwaps(s: System, act: Action, id: UserId)
    requires Can(s, act)
    ensures Redeems(s, act, id) <==> SR.Swaps(s.core, EventOf(s, act), id)
  {
    WriterOf(s, act);
    hide Exec, SR.Next, SR.Enabled, Matches, OpenWhileRestricted, HandlerOnly;
  }

  /** The profile updates of `id` between `i` and `k` write back the list they find. */
  ghost predicate CodesKept(tr: seq<System>, acts: seq<Action>, id: UserId, i: nat, k: nat)
    requires Run(tr, acts) && k <= |acts|
  {
    forall n :: i <= n < k ==> SR.KeepsCodes(tr[n].core, EventOf(tr[n], acts[n]), id)
  }

  /** Over a stretch of a run the list of a user keeps its length and positions, every
      successful redemption blanks one good slot, no slot is redeemed twice, and successes
      plus codes left add up to the codes there were, as long as the profile updates of that
      user in the stretch write back the list they find. */
  lemma {:induction false} RedemptionsConserve(tr: seq<System>, acts: seq<Action>, i: nat, k: nat, id: UserId)
    requires Run(tr, acts) && i <= k < |tr| && CodesKept(tr, acts, id, i, k)
    requires id in tr[i].core.db.users && id in tr[k].core.db.users && tr[i].core.db.users[id].recoveryCodes.Codes?
    ensures tr[k].core.db.users[id].recoveryCodes.Codes?
    ensures Balanced(tr[i].core.db.users[id].recoveryCodes.digests, tr[k].core.db.users[id].recoveryCodes.digests,
                     Redeemed(tr, acts, i, k, id))
    decreases k
  {
    hide Exec, SR.Next, SR.Enabled, SR.Recorded, SR.KeepsCodes, Next, Ready, EventOf, After, Sound, Balanced;
    if i < k {
      var act := acts[k - 1];
      StepsList(tr, acts, i, k - 1, id);
      RedemptionsConserve(tr, acts, i, k - 1, id);
      if Redeems(tr[k - 1], act, id) {
        BalancedStep(tr[i].core.db.users[id].recoveryCodes.digests,
                     tr[k - 1].core.db.users[id].recoveryCodes.digests, Redeemed(tr, acts, i, k - 1, id), act.slot);
      } else {
        assert Redeemed(tr, acts, i, k, id) == Redeemed(tr, acts, i, k - 1, id);
      }
    } else {
      BalancedStart(tr[i].core.db.users[id].recoveryCodes.digests);
    }
  }

  lemma BalancedStart(digests: seq<string>)
    ensures Balanced(digests, digests, [])
  {
  }

  /** One step of a run, for a user known since `i`. */
  lemma StepsList(tr: seq<System>, acts: seq<Action>, i: nat, k: nat, id: UserId)
    requires Run(tr, acts) && i <= k < |acts| && id in tr[i].core.db.users && id in tr[k + 1].core.db.users
    requires SR.KeepsCodes(tr[k].core, EventOf(tr[k], acts[k]), id)
    ensures id in tr[k].core.db.users && ListStep(tr[k], acts[k], tr[k + 1], id)
  {
    hide Exec, SR.Next, SR.Enabled, SR.Recorded, SR.KeepsCodes, Next, Ready, EventOf, Sound, ListStep;
    AlwaysSound(tr, acts, k);
    assert Can(tr[k], acts[k]) && tr[k + 1] == Next(tr[k], acts[k]);
    StillUsed(tr, acts, i, k, id);
    StepList(tr[k], acts[k], id);
  }

  // ----- profile updates that span a redemption ---------------------------------------------------

  /** The step is a successful profile update by a handler that read its user before the
      redemption at step `n`. */
  ghost predicate Spans(tr: seq<System>, acts: seq<Action>, k: nat, n: nat)
    requires Run(tr, acts) && k < |acts|
  {
    && acts[k].ProfileWrite? && acts[k].a in tr[k].actors && tr[k].actors[acts[k].a].ProfileLoaded?
    && tr[k].actors[acts[k].a].seen <= n < k
    && Redeems(tr[n], acts[n], tr[k].actors[acts[k].a].id)
  }

  ghost predicate NoneSpans(tr: seq<System>, acts: seq<Action>, k: nat)
    requires Run(tr, acts) && k <= |acts|
  {
    forall m, n :: 0 <= m < k && 0 <= n < m ==> !Spans(tr, acts, m, n)
  }

  /** Without redemptions and with its list kept, a user has the same list at both ends. */
  lemma {:induction false} ListUnmoved(tr: seq<System>, acts: seq<Action>, i: nat, k: nat, id: UserId)
    requires Run(tr, acts) && i <= k < |tr| && CodesKept(tr, acts, id, i, k)
    requires id in tr[i].core.db.users && id in tr[k].core.db.users
    requires forall n :: i <= n < k ==> !Redeems(tr[n], acts[n], id)
    ensures tr[k].core.db.users[id].recoveryCodes == tr[i].core.db.users[id].recoveryCodes
    decreases k
  {
    hide Exec, SR.Next, SR.Enabled, SR.KeepsCodes, Next, Ready, EventOf, Redeems;
    if i < k {
      StepsList(tr, acts, i, k - 1, id);
      ListUnmoved(tr, acts, i, k - 1, id);
    }
  }

  /** A slot that is good at `k` was good at `i`. */
  lemma {:induction false} GoodSlotWasGood(tr: seq<System>, acts: seq<Action>, i: nat, k: nat, id: UserId, slot: nat)
    requires Run(tr, acts) && i <= k < |tr| && CodesKept(tr, acts, id, i, k)
    requires id in tr[i].core.db.users && id in tr[k].core.db.users
    requires var codes := tr[k].core.db.users[id].recoveryCodes;
             codes.Codes? && slot < |codes.digests| && codes.digests[slot] != ""
    ensures !SR.BlankAt(tr[i].core.db.users[id].recoveryCodes, slot)
    decreases k
  {
    hide Exec, SR.Next, SR.Enabled, SR.KeepsCodes, Next, Ready, EventOf;
    if i < k {
      StepsList(tr, acts, i, k - 1, id);
      GoodSlotWasGood(tr, acts, i, k - 1, id, slot);
    }
  }

  /** If no profile update so far spanned a redemption, all of them wrote back the list they found. */
  lemma {:induction false} UnspannedKeeps(tr: seq<System>, acts: seq<Action>, k: nat, id: UserId)
    requires Run(tr, acts) && k <= |acts| && NoneSpans(tr, acts, k)
    ensures CodesKept(tr, acts, id, 0, k)
  {
    hide Exec, SR.Next, SR.Enabled, Next, Ready, EventOf, SR.Updates, Redeems;
    if k > 0 {
      UnspannedKeeps(tr, acts, k - 1, id);
      assert Can(tr[k - 1], acts[k - 1]);
      if SR.Updates(tr[k - 1].core, EventOf(tr[k - 1], acts[k - 1]), id) {
        var n := UpdateCarriesRead(tr, acts, k - 1, id);
        forall m | n <= m < k - 1 ensures !Redeems(tr[m], acts[m], id) {
          assert !Spans(tr, acts, k - 1, m);
        }
        UpdateFindsUser(tr[k - 1].core, EventOf(tr[k - 1], acts[k - 1]), id);
        ListUnmoved(tr, acts, n, k - 1, id);
      }
    }
  }

  /** The first profile update that spans a redemption puts the redeemed code back. */
  lemma SpanningRestores(tr: seq<System>, acts: seq<Action>, k: nat, n: nat)
    requires Run(tr, acts) && k < |acts| && n < k && NoneSpans(tr, acts, k) && Spans(tr, acts, k, n)
    ensures Can(tr[n], acts[n]) && acts[n].MfaRecovery?
    ensures var x := tr[k].actors[acts[k].a];
            && Can(tr[k], acts[k]) && !SR.KeepsBlank(tr[k].core, EventOf(tr[k], acts[k]), x.id, acts[n].slot)
  {
    var id, slot := tr[k].actors[acts[k].a].id, acts[n].slot;
    assert Can(tr[k], acts[k]) && Can(tr[n], acts[n]) && tr[n + 1] == Next(tr[n], acts[n]);
    ProfileWriteUpdates(tr[k], acts[k]);
    hide Exec, SR.Next, SR.Enabled, Next, Ready, EventOf, SR.Updates, Sound, SR.KeepsCodes;
    UnspannedKeeps(tr, acts, k, id);
    UpdateFindsUser(tr[k].core, EventOf(tr[k], acts[k]), id);
    var seen := UpdateCarriesRead(tr, acts, k, id);
    SpentSince(tr, acts, n, k, id);
    GoodSlotWasGood(tr, acts, seen, n, id, slot);
  }

  /** A slot redeemed at `n` was good then, and is blank as long as the list is kept. */
  lemma SpentSince(tr: seq<System>, acts: seq<Action>, n: nat, k: nat, id: UserId)
    requires Run(tr, acts) && n < k < |tr| && Redeems(tr[n], acts[n], id) && id in tr[k].core.db.users
    requires CodesKept(tr, acts, id, 0, k)
    ensures id in tr[n].core.db.users && SR.BlankAt(tr[k].core.db.users[id].recoveryCodes, acts[n].slot)
    ensures var codes := tr[n].core.db.users[id].recoveryCodes;
            codes.Codes? && acts[n].slot < |codes.digests| && codes.digests[acts[n].slot] != ""
  {
    var x := CodeTicket(id, acts[n].slot);
    assert tr[n + 1] == Next(tr[n], acts[n]);
    assert x in Acquired(tr[n], acts[n]);
    RedemptionFindsUser(tr[n], acts[n], id);
    hide Exec, SR.Next, SR.Enabled, SR.Recorded, Next, Ready, EventOf, Acquired, Sound;
    AlwaysSound(tr, acts, n);
    AcquiredFresh(tr[n], acts[n], x);
    forall m | n + 1 <= m < k ensures Leaves(tr[m], acts[m], x) {
      assert SR.KeepsCodes(tr[m].core, EventOf(tr[m], acts[m]), id);
    }
    SpentForGood(tr, acts, n + 1, k, x);
  }

  lemma RedemptionFindsUser(s: System, act: Action, id: UserId)
    requires Redeems(s, act, id)
    ensures id in s.core.db.users
    ensures var codes := s.core.db.users[id].recoveryCodes;
            codes.Codes? && act.slot < |codes.digests| && codes.digests[act.slot] != ""
  {
  }

  /** If some update of a run spans a redemption there is a first one. */
  lemma {:induction false} FirstSpan(tr: seq<System>, acts: seq<Action>, k: nat) returns (m: nat, n: nat)
    requires Run(tr, acts) && k <= |acts| && !NoneSpans(tr, acts, k)
    ensures n < m < k && NoneSpans(tr, acts, m) && Spans(tr, acts, m, n)
    ensures acts[m].ProfileWrite? && acts[m].a in tr[m].actors && tr[m].actors[acts[m].a].ProfileLoaded?
  {
    hide Run, Redeems;
    if NoneSpans(tr, acts, k - 1) {
      m, n :| 0 <= m < k && 0 <= n < m && Spans(tr, acts, m, n);
      assert m == k - 1;
    } else {
      m, n := FirstSpan(tr, acts, k - 1);
    }
  }

  /** In a run, every spent recovery slot stays spent if and only if no profile update of the
      run has a redemption of its user between its read and its write. */
  lemma SpentSlotsStayIff(tr: seq<System>, acts: seq<Action>)
    requires Run(tr, acts)
    ensures (forall i, k, x: Ticket :: 0 <= i <= k < |tr| && x.CodeTicket? && Spent(tr[i].core, x) ==>
               Spent(tr[k].core, x)) <==>
            NoneSpans(tr, acts, |acts|)
  {
    hide Exec, SR.Next, SR.Enabled, SR.Recorded, Next, Ready, EventOf, Spans, Spent, Sound, SR.KeepsBlank,
         SR.KeepsCodes;
    if NoneSpans(tr, acts, |acts|) {
      forall i, k, x: Ticket | 0 <= i <= k < |tr| && x.CodeTicket? && Spent(tr[i].core, x)
        ensures Spent(tr[k].core, x)
      {
        UnspannedKeeps(tr, acts, |acts|, x.id);
        forall n | i <= n < k ensures Leaves(tr[n], acts[n], x) {
          assert SR.KeepsCodes(tr[n].core, EventOf(tr[n], acts[n]), x.id);
          KeepingKeepsBlanks(tr[n].core, EventOf(tr[n], acts[n]), x.id, x.slot);
        }
        SpentForGood(tr, acts, i, k, x);
      }
    } else {
      var m, n := FirstSpan(tr, acts, |acts|);
      SpanningRestores(tr, acts, m, n);
      var x := CodeTicket(tr[m].actors[acts[m].a].id, acts[n].slot);
      Unspends(tr, acts, m, x.id, x.slot);
      assert Spent(tr[m].core, x) && !Spent(tr[m + 1].core, x) && m + 1 < |tr|;
    }
  }

  lemma KeepingKeepsBlanks(c: SR.Core, e: SR.Event, id: UserId, slot: nat)
    requires SR.KeepsCodes(c, e, id)
    ensures SR.KeepsBlank(c, e, id, slot)
  {
    hide SR.Updates;
  }

  lemma Unspends(tr: seq<System>, acts: seq<Action>, k: nat, id: UserId, slot: nat)
    requires Run(tr, acts) && k < |acts| && Can(tr[k], acts[k])
    requires !SR.KeepsBlank(tr[k].core, EventOf(tr[k], acts[k]), id, slot)
    ensures Spent(tr[k].core, CodeTicket(id, slot)) && !Spent(tr[k + 1].core, CodeTicket(id, slot))
  {
    assert tr[k + 1] == Next(tr[k], acts[k]);
    hide Exec, SR.Next, SR.Enabled, SR.Recorded, Next, Ready, EventOf, Sound, Run;
    AlwaysSound(tr, acts, k);
    KnownUser(tr, acts, k, id);
    SpentStays(tr[k], acts[k], CodeTicket(id, slot));
  }

  /** The lists of a run move by redemptions alone if and only if no profile update of the run
      has a redemption of its user between its read and its write. */
  lemma ListsMoveByRedemptionsIff(tr: seq<System>, acts: seq<Action>)
    requires Run(tr, acts)
    ensures (forall k, id :: 0 <= k < |acts| && id in tr[k].core.db.users && id in tr[k + 1].core.db.users ==>
               ListStep(tr[k], acts[k], tr[k + 1], id)) <==>
            NoneSpans(tr, acts, |acts|)
  {
    hide Exec, SR.Next, SR.Enabled, SR.Recorded, SR.KeepsCodes, SR.KeepsBlank, Next, Ready, EventOf, Spans, ListStep;
    if NoneSpans(tr, acts, |acts|) {
      forall k, id | 0 <= k < |acts| && id in tr[k].core.db.users && id in tr[k + 1].core.db.users
        ensures ListStep(tr[k], acts[k], tr[k + 1], id)
      {
        UnspannedKeeps(tr, acts, |acts|, id);
        StepsList(tr, acts, k, k, id);
      }
    } else {
      var m, n := FirstSpan(tr, acts, |acts|);
      SpanningRestores(tr, acts, m, n);
      StaleListStep(tr, acts, m, tr[m].actors[acts[m].a].id, acts[n].slot);
    }
  }

  lemma StaleListStep(tr: seq<System>, acts: seq<Action>, k: nat, id: UserId, slot: nat)
    requires Run(tr, acts) && k < |acts| && Can(tr[k], acts[k])
    requires !SR.KeepsBlank(tr[k].core, EventOf(tr[k], acts[k]), id, slot)
    ensures id in tr[k].core.db.users && id in tr[k + 1].core.db.users && !ListStep(tr[k], acts[k], tr[k + 1], id)
  {
    hide Exec, SR.Next, SR.Enabled, Next, Ready, EventOf, Sound;
    var n := UpdateCarriesRead(tr, acts, k, id);
    assert !Redeems(tr[k], acts[k], id);
  }
}
