/** Which interleavings of profile updates the guarantees about credentials allow: exactly
    those in which no update has a password replacement of its user between its read and
    its write. */
module ProfileUpdates {
  import opened Store
  import SR = StoreRuns
  import opened Handlers
  import opened Credentials
  import opened Grants

  /** The event replaces the password of `id`. */
  predicate Replacement(c: SR.Core, e: SR.Event, id: UserId) {
    e.Write? && Replaces(e.op) && e.op.id == id && Exec(c.db, e.op).1 == Ok
  }

  /** The step at `k` is a successful profile update by a handler that read its user before
      the replacement at step `n`. */
  ghost predicate Spans(tr: seq<System>, acts: seq<Action>, k: nat, n: nat)
    requires Run(tr, acts) && k < |acts|
  {
    && acts[k].ProfileWrite? && acts[k].a in tr[k].actors && tr[k].actors[acts[k].a].ProfileLoaded?
    && tr[k].actors[acts[k].a].seen <= n < k
    && Replacement(tr[n].core, EventOf(tr[n], acts[n]), tr[k].actors[acts[k].a].id)
  }

  ghost predicate NoneSpans(tr: seq<System>, acts: seq<Action>, k: nat)
    requires Run(tr, acts) && k <= |acts|
  {
    forall m, n :: 0 <= m < k && 0 <= n < m ==> !Spans(tr, acts, m, n)
  }

  // ----- one step ------------------------------------------------------------------------

  lemma StepUnmoved(c: SR.Core, e: SR.Event, id: UserId)
    requires SR.Recorded(c) && SR.Enabled(c, e) && id in c.ids && id in SR.Next(c, e).db.users
    requires SR.KeepsCredentials(c, e, id) && !Replacement(c, e, id)
    ensures id in c.db.users && SR.SameCredentials(SR.Next(c, e).db.users[id], c.db.users[id])
  {
    SR.StepUser(c, e, id);
    SR.WriteIsExec(c, e);
    hide Exec, Apply, SR.Recorded, SR.Enabled, SR.Next;
    if e.Write? {
      UserRows(c.db, e.op, id);
    }
  }

  lemma ReplacementIsFresh(c: SR.Core, e: SR.Event, id: UserId)
    requires SR.Enabled(c, e) && Replacement(c, e, id)
    ensures var d := SR.Next(c, e);
            id in d.db.users ==> d.db.users[id].passwordHash !in c.hashes
  {
    SR.WriteIsExec(c, e);
    ReplacementRevokesEverything(c.db, e.op);
    hide Exec, Apply;
  }

  // ----- whole runs ------------------------------------------------------------------------

  /** Without replacements and with its credentials kept, a user has the same at both ends. */
  lemma {:induction false} Unmoved(tr: seq<System>, acts: seq<Action>, i: nat, k: nat, id: UserId)
    requires Run(tr, acts) && i <= k < |tr| && KeptFor(tr, acts, id, i, k)
    requires id in tr[i].core.db.users && id in tr[k].core.db.users
    requires forall n :: i <= n < k ==> !Replacement(tr[n].core, EventOf(tr[n], acts[n]), id)
    ensures SR.SameCredentials(tr[k].core.db.users[id], tr[i].core.db.users[id])
    decreases k
  {
    hide Exec, SR.Next, SR.Enabled, SR.Recorded, SR.KeepsCredentials, Next, Ready, EventOf, Sound, Replacement;
    if i < k {
      AlwaysSound(tr, acts, k - 1);
      assert Can(tr[k - 1], acts[k - 1]) && tr[k] == Next(tr[k - 1], acts[k - 1]);
      NextCore(tr[k - 1], acts[k - 1]);
      StillUsed(tr, acts, i, k - 1, id);
      StepUnmoved(tr[k - 1].core, EventOf(tr[k - 1], acts[k - 1]), id);
      Unmoved(tr, acts, i, k - 1, id);
    }
  }

  lemma {:induction false} UnspannedKeeps(tr: seq<System>, acts: seq<Action>, k: nat, id: UserId)
    requires Run(tr, acts) && k <= |acts| && NoneSpans(tr, acts, k)
    ensures KeptFor(tr, acts, id, 0, k)
  {
    hide Exec, SR.Next, SR.Enabled, Next, Ready, EventOf, SR.Updates, Replacement;
    if k > 0 {
      UnspannedKeeps(tr, acts, k - 1, id);
      assert Can(tr[k - 1], acts[k - 1]);
      if SR.Updates(tr[k - 1].core, EventOf(tr[k - 1], acts[k - 1]), id) {
        var n := UpdateCarriesRead(tr, acts, k - 1, id);
        forall m | n <= m < k - 1 ensures !Replacement(tr[m].core, EventOf(tr[m], acts[m]), id) {
          assert !Spans(tr, acts, k - 1, m);
        }
        UpdateFindsUser(tr[k - 1].core, EventOf(tr[k - 1], acts[k - 1]), id);
        Unmoved(tr, acts, n, k - 1, id);
      }
    }
  }

  /** An update that spans a replacement carries credentials other than the stored ones, or
      some update after its read did. */
  lemma SpanningCarriesOthers(tr: seq<System>, acts: seq<Action>, k: nat, n: nat)
    requires Run(tr, acts) && k < |acts| && n < k && Spans(tr, acts, k, n)
    ensures !KeptFor(tr, acts, tr[k].actors[acts[k].a].id, tr[k].actors[acts[k].a].seen, k + 1)
  {
    var x := tr[k].actors[acts[k].a];
    var id := x.id;
    assert Can(tr[k], acts[k]) && Can(tr[n], acts[n]) && tr[n + 1] == Next(tr[n], acts[n]);
    ProfileWriteUpdates(tr[k], acts[k]);
    hide Exec, SR.Next, SR.Enabled, SR.Recorded, Next, Ready, EventOf, SR.Updates, Sound, Replacement;
    var seen := UpdateCarriesRead(tr, acts, k, id);
    UpdateFindsUser(tr[k].core, EventOf(tr[k], acts[k]), id);
    if KeptFor(tr, acts, id, seen, k + 1) {
      assert SR.KeepsCredentials(tr[k].core, EventOf(tr[k], acts[k]), id);
      var h, f := x.user.passwordHash, x.user.mustChangePassword;
      EpochHeld(tr, acts, seen, k, id, h, f);
      assert SR.Holds(tr[n + 1].core, id, h, f);
      NextCore(tr[n], acts[n]);
      StillUsed(tr, acts, seen, n, id);
      ReplacementIsFresh(tr[n].core, EventOf(tr[n], acts[n]), id);
    }
  }

  /** Every profile update of a run carries the credentials it finds if and only if none has a
      replacement of its user between its read and its write. */
  lemma CredentialsKeptIffNoneSpans(tr: seq<System>, acts: seq<Action>)
    requires Run(tr, acts)
    ensures (forall id :: KeptFor(tr, acts, id, 0, |acts|)) <==> NoneSpans(tr, acts, |acts|)
  {
    hide Exec, SR.Next, SR.Enabled, Next, Ready, EventOf, Replacement, SR.KeepsCredentials;
    if NoneSpans(tr, acts, |acts|) {
      forall id ensures KeptFor(tr, acts, id, 0, |acts|) {
        UnspannedKeeps(tr, acts, |acts|, id);
      }
    } else {
      var k, n :| 0 <= k < |acts| && 0 <= n < k && Spans(tr, acts, k, n);
      SpanningCarriesOthers(tr, acts, k, n);
      assert !KeptFor(tr, acts, tr[k].actors[acts[k].a].id, 0, |acts|);
    }
  }

  /** As long as no profile update has spanned a replacement of its user, no session or challenge
      has outlived the password it was made under: from the credential check to now the user
      held one hash and one flag. */
  lemma NoGrantOutlivesItsPassword(tr: seq<System>, acts: seq<Action>, k: nat, t: Token, j: nat)
    requires Run(tr, acts) && k < |tr| && NoneSpans(tr, acts, k) && Live(tr[k], t)
    ensures t in tr[k].grants
    ensures var g := tr[k].grants[t]; g.seen <= j <= k ==> SR.Holds(tr[j].core, g.id, g.hash, g.flagged)
  {
    hide Exec, SR.Next, SR.Enabled, Next, Ready, EventOf, NoneSpans, SR.KeepsCredentials, Live;
    GrantUnbroken(tr, acts, k, t);
    UnspannedKeeps(tr, acts, k, tr[k].grants[t].id);
  }
}
