/** What the bounded limiter forgets, against a limiter that keeps every window for ever: when
    the two give every call the same window, and a run in which they do not. */
module LimiterMemory {
  import opened RateLimiter

  /** A limiter that keeps every window for ever. */
  function Unbounded(cs: seq<Call>): Windows {
    if cs == [] then map[]
    else
      var c := cs[|cs| - 1];
      var m := Unbounded(cs[..|cs| - 1]);
      m[c.key := Bump(Entry(m, c.key), c.now, c.window)]
  }

  predicate UnboundedVerdict(cs: seq<Call>, c: Call) {
    Bump(Entry(Unbounded(cs), c.key), c.now, c.window).count <= c.limit
  }

  /** The call at `k` gets the window the unbounded limiter gives it. */
  ghost predicate SameWindow(ms: seq<Windows>, cs: seq<Call>, vs: seq<Key>, k: nat)
    requires Run(ms, cs, vs) && k < |cs|
  {
    Bumped(ms[k], cs[k], vs[k]) == Bump(Entry(Unbounded(cs[..k]), cs[k].key), cs[k].now, cs[k].window)
  }

  /** The window of `key` was dropped to make room by the call at `p`, and `key` had none since. */
  ghost predicate Forgotten(ms: seq<Windows>, cs: seq<Call>, vs: seq<Key>, key: Key, p: nat, k: nat)
    requires Run(ms, cs, vs) && k <= |cs|
  {
    p < k && Drops(ms[p], cs[p], vs[p], key) && forall q :: p < q <= k ==> key !in ms[q]
  }

  /** The call at `k` reads no later than the end of the last window of its key, which was dropped. */
  ghost predicate Undercuts(ms: seq<Windows>, cs: seq<Call>, vs: seq<Key>, k: nat)
    requires Run(ms, cs, vs) && k < |cs|
  {
    exists p: nat :: Forgotten(ms, cs, vs, cs[k].key, p, k) && cs[k].now <= ms[p][cs[k].key].reset
  }

  /** What the bounded map holds, the unbounded one holds. */
  ghost predicate Agrees(m: Windows, r: Windows) {
    forall key :: key in m ==> key in r && r[key] == m[key]
  }

  // ----- what is gone was dropped -------------------------------------------------------------

  lemma UnboundedStep(cs: seq<Call>, k: nat)
    requires k < |cs|
    ensures var r := Unbounded(cs[..k]);
            Unbounded(cs[..k + 1]) == r[cs[k].key := Bump(Entry(r, cs[k].key), cs[k].now, cs[k].window)]
  {
    assert cs[..k + 1][..k] == cs[..k];
  }

  lemma {:induction false} GoneWasDropped(ms: seq<Windows>, cs: seq<Call>, vs: seq<Key>, key: Key, k: nat)
    returns (p: nat)
    requires Run(ms, cs, vs) && k <= |cs| && key in Unbounded(cs[..k]) && key !in ms[k]
    ensures Forgotten(ms, cs, vs, key, p, k)
  {
    assert cs[..0] == [];
    assert ms[k] == After(ms[k - 1], cs[k - 1], vs[k - 1]);
    if key in ms[k - 1] {
      p := k - 1;
    } else {
      UnboundedStep(cs, k - 1);
      p := GoneWasDropped(ms, cs, vs, key, k - 1);
    }
  }

  lemma CallerIsThere(m: Windows, c: Call, v: Key)
    ensures c.key in After(m, c, v)
  {
  }

  /** While a key has no window the unbounded limiter's stays as it was. */
  lemma {:induction false} UnseenUnchanged(ms: seq<Windows>, cs: seq<Call>, vs: seq<Key>, key: Key, p: nat, k: nat)
    requires Run(ms, cs, vs) && p < k <= |cs| && forall q :: p < q <= k ==> key !in ms[q]
    requires key in Unbounded(cs[..p])
    ensures key in Unbounded(cs[..k]) && Unbounded(cs[..k])[key] == Unbounded(cs[..p])[key]
    decreases k
  {
    hide Unbounded, After, Evicts, Purge, Bump, Entry;
    UnboundedStep(cs, k - 1);
    CallerIsThere(ms[k - 1], cs[k - 1], vs[k - 1]);
    assert ms[k] == After(ms[k - 1], cs[k - 1], vs[k - 1]);
    if p < k - 1 {
      UnseenUnchanged(ms, cs, vs, key, p, k - 1);
    }
  }

  lemma StepAgrees(m: Windows, r: Windows, c: Call, v: Key)
    requires Agrees(m, r) && Bumped(m, c, v) == Bump(Entry(r, c.key), c.now, c.window)
    ensures Agrees(After(m, c, v), r[c.key := Bumped(m, c, v)])
  {
    hide Bumped;
  }

  lemma {:induction false} StaysAgreed(ms: seq<Windows>, cs: seq<Call>, vs: seq<Key>, k: nat)
    requires Run(ms, cs, vs) && k <= |cs| && forall j :: 0 <= j < k ==> SameWindow(ms, cs, vs, j)
    ensures Agrees(ms[k], Unbounded(cs[..k]))
  {
    hide Unbounded, Bumped, Bump, Entry, After, Agrees;
    if k == 0 {
      NothingHeld(ms, cs, vs);
    } else {
      StaysAgreed(ms, cs, vs, k - 1);
      StepOf(ms, cs, vs, k - 1);
      assert SameWindow(ms, cs, vs, k - 1);
      hide Run;
      UnboundedStep(cs, k - 1);
      StepAgrees(ms[k - 1], Unbounded(cs[..k - 1]), cs[k - 1], vs[k - 1]);
    }
  }

  lemma NothingHeld(ms: seq<Windows>, cs: seq<Call>, vs: seq<Key>)
    requires Run(ms, cs, vs)
    ensures Agrees(ms[0], Unbounded(cs[..0]))
  {
  }

  // ----- one call -------------------------------------------------------------------------------

  /** With the past remembered alike, a call gets the same window exactly when it does not undercut. */
  lemma SameUnlessUndercut(ms: seq<Windows>, cs: seq<Call>, vs: seq<Key>, k: nat)
    requires Run(ms, cs, vs) && k < |cs| && forall j :: 0 <= j < k ==> SameWindow(ms, cs, vs, j)
    ensures SameWindow(ms, cs, vs, k) <==> !Undercuts(ms, cs, vs, k)
  {
    hide Run, Unbounded, Bumped, Bump, Entry, Agrees;
    var key, r := cs[k].key, Unbounded(cs[..k]);
    StaysAgreed(ms, cs, vs, k);
    AfterZero(ms, cs, vs, k);
    OneCall(ms[k], r, cs[k], vs[k]);
    if key in ms[k] {
      assert forall p: nat :: !Forgotten(ms, cs, vs, key, p, k);
    } else if key in r {
      var p := GoneWasDropped(ms, cs, vs, key, k);
      LastWindow(ms, cs, vs, key, p, k);
      forall p': nat | Forgotten(ms, cs, vs, key, p', k) ensures p' == p {
      }
      AlikeIff(ms[k], r, cs[k], vs[k]);
    } else {
      NotDropped(ms, cs, vs, key, k);
    }
  }

  lemma AfterZero(ms: seq<Windows>, cs: seq<Call>, vs: seq<Key>, k: nat)
    requires Run(ms, cs, vs) && k < |cs|
    ensures ZERO < cs[k].now && |ms| == |cs| + 1 && |vs| == |cs|
  {
  }

  /** A key both know, or neither, gets the same window. */
  lemma OneCall(m: Windows, r: Windows, c: Call, v: Key)
    requires Agrees(m, r) && ZERO < c.now
    ensures c.key in m || c.key !in r ==> Bumped(m, c, v) == Bump(Entry(r, c.key), c.now, c.window)
  {
  }

  /** A key only the unbounded limiter knows gets the same one exactly when its window is over. */
  lemma AlikeIff(m: Windows, r: Windows, c: Call, v: Key)
    requires ZERO < c.now && c.key !in m && c.key in r && r[c.key].count >= 1
    ensures Bumped(m, c, v) == Bump(Entry(r, c.key), c.now, c.window) <==> r[c.key].reset < c.now
  {
  }

  lemma LastWindow(ms: seq<Windows>, cs: seq<Call>, vs: seq<Key>, key: Key, p: nat, k: nat)
    requires Run(ms, cs, vs) && k <= |cs| && Forgotten(ms, cs, vs, key, p, k)
    requires forall j :: 0 <= j < k ==> SameWindow(ms, cs, vs, j)
    ensures key in Unbounded(cs[..k]) && Unbounded(cs[..k])[key] == ms[p][key] && ms[p][key].count >= 1
  {
    StaysAgreed(ms, cs, vs, p);
    UnseenUnchanged(ms, cs, vs, key, p, k);
    WindowsAreUsed(ms, cs, vs, p);
  }

  lemma NotDropped(ms: seq<Windows>, cs: seq<Call>, vs: seq<Key>, key: Key, k: nat)
    requires Run(ms, cs, vs) && k <= |cs| && key !in Unbounded(cs[..k])
    requires forall j :: 0 <= j < k ==> SameWindow(ms, cs, vs, j)
    ensures forall p: nat :: !Forgotten(ms, cs, vs, key, p, k)
  {
    forall p: nat | Forgotten(ms, cs, vs, key, p, k) ensures false {
      LastWindow(ms, cs, vs, key, p, k);
    }
  }

  // ----- whole runs -------------------------------------------------------------------------------

  lemma {:induction false} SameUpTo(ms: seq<Windows>, cs: seq<Call>, vs: seq<Key>, k: nat)
    requires Run(ms, cs, vs) && k <= |cs| && forall j :: 0 <= j < k ==> !Undercuts(ms, cs, vs, j)
    ensures forall j :: 0 <= j < k ==> SameWindow(ms, cs, vs, j)
  {
    hide Run, Undercuts, SameWindow;
    if k > 0 {
      SameUpTo(ms, cs, vs, k - 1);
      SameUnlessUndercut(ms, cs, vs, k - 1);
    }
  }

  lemma {:induction false} FirstUndercut(ms: seq<Windows>, cs: seq<Call>, vs: seq<Key>, k: nat) returns (j: nat)
    requires Run(ms, cs, vs) && k < |cs| && Undercuts(ms, cs, vs, k)
    ensures j <= k && Undercuts(ms, cs, vs, j) && forall i :: 0 <= i < j ==> !Undercuts(ms, cs, vs, i)
  {
    hide Run, Undercuts;
    if i :| 0 <= i < k && Undercuts(ms, cs, vs, i) {
      j := FirstUndercut(ms, cs, vs, i);
    } else {
      j := k;
    }
  }

  /** In any order of readings and with any evictions: the bounded limiter gives every call of a
      run the window the unbounded one gives it if and only if no call reads at or before the
      end of a window of its key that was dropped to make room. */
  lemma ForgettingShowsIff(ms: seq<Windows>, cs: seq<Call>, vs: seq<Key>)
    requires Run(ms, cs, vs)
    ensures (forall k :: 0 <= k < |cs| ==> SameWindow(ms, cs, vs, k)) <==>
            (forall k :: 0 <= k < |cs| ==> !Undercuts(ms, cs, vs, k))
  {
    hide Run, Undercuts, SameWindow;
    if forall k :: 0 <= k < |cs| ==> !Undercuts(ms, cs, vs, k) {
      SameUpTo(ms, cs, vs, |cs|);
    } else {
      var k :| 0 <= k < |cs| && Undercuts(ms, cs, vs, k);
      var j := FirstUndercut(ms, cs, vs, k);
      SameUpTo(ms, cs, vs, j);
      SameUnlessUndercut(ms, cs, vs, j);
    }
  }

  /** The call at `k` undercuts a window that had reached its limit. */
  ghost predicate Escapes(ms: seq<Windows>, cs: seq<Call>, vs: seq<Key>, k: nat)
    requires Run(ms, cs, vs) && k < |cs|
  {
    exists p: nat ::
      && Forgotten(ms, cs, vs, cs[k].key, p, k)
      && cs[k].now <= ms[p][cs[k].key].reset && 1 <= cs[k].limit <= ms[p][cs[k].key].count
  }

  /** Up to and including the first call that undercuts, the two limiters give different verdicts
      exactly when that call's window, had it been kept, had reached the limit: the bounded one
      lets it through and the unbounded one does not. */
  lemma SameVerdicts(ms: seq<Windows>, cs: seq<Call>, vs: seq<Key>, k: nat)
    requires Run(ms, cs, vs) && k < |cs| && forall j :: 0 <= j < k ==> !Undercuts(ms, cs, vs, j)
    ensures Verdict(ms[k], cs[k], vs[k]) == UnboundedVerdict(cs[..k], cs[k]) <==> !Escapes(ms, cs, vs, k)
  {
    hide Run, Unbounded, SameWindow, Undercuts;
    SameUpTo(ms, cs, vs, k);
    SameUnlessUndercut(ms, cs, vs, k);
    AfterZero(ms, cs, vs, k);
    if Undercuts(ms, cs, vs, k) {
      var p := TheForgotten(ms, cs, vs, k);
      LastWindow(ms, cs, vs, cs[k].key, p, k);
      DifferentVerdicts(ms[k], Unbounded(cs[..k]), cs[k], vs[k]);
    } else {
      NoEscape(ms, cs, vs, k);
      SameWindowSameVerdict(ms, cs, vs, k);
    }
  }

  /** The window an undercutting call would have been in is one and the same however it is found. */
  lemma TheForgotten(ms: seq<Windows>, cs: seq<Call>, vs: seq<Key>, k: nat) returns (p: nat)
    requires Run(ms, cs, vs) && k < |cs| && Undercuts(ms, cs, vs, k)
    ensures Forgotten(ms, cs, vs, cs[k].key, p, k) && cs[k].now <= ms[p][cs[k].key].reset && cs[k].key !in ms[k]
    ensures forall p': nat :: Forgotten(ms, cs, vs, cs[k].key, p', k) ==> p' == p
  {
    p :| Forgotten(ms, cs, vs, cs[k].key, p, k) && cs[k].now <= ms[p][cs[k].key].reset;
    hide Run;
  }

  lemma NoEscape(ms: seq<Windows>, cs: seq<Call>, vs: seq<Key>, k: nat)
    requires Run(ms, cs, vs) && k < |cs| && !Undercuts(ms, cs, vs, k)
    ensures !Escapes(ms, cs, vs, k)
  {
    hide Forgotten;
  }

  lemma SameWindowSameVerdict(ms: seq<Windows>, cs: seq<Call>, vs: seq<Key>, k: nat)
    requires Run(ms, cs, vs) && k < |cs| && SameWindow(ms, cs, vs, k)
    ensures Verdict(ms[k], cs[k], vs[k]) == UnboundedVerdict(cs[..k], cs[k])
  {
    hide Bumped, Bump, Unbounded;
  }

  lemma DifferentVerdicts(m: Windows, r: Windows, c: Call, v: Key)
    requires ZERO < c.now && c.key !in m && c.key in r && c.now <= r[c.key].reset && r[c.key].count >= 1
    ensures Verdict(m, c, v) <==> 1 <= c.limit
    ensures Bump(Entry(r, c.key), c.now, c.window).count <= c.limit <==> r[c.key].count < c.limit
  {
  }

  /** A call undercuts only after a random eviction, or if it reads earlier than an earlier purge
      did; so with neither, and in particular in lock order without evictions, purging is
      invisible. */
  lemma UndercutNeedsCause(ms: seq<Windows>, cs: seq<Call>, vs: seq<Key>, k: nat)
    requires Run(ms, cs, vs) && k < |cs| && Undercuts(ms, cs, vs, k)
    ensures exists p :: 0 <= p < k && NeedsRoom(ms[p], cs[p]) && (Evicts(ms[p], cs[p]) || cs[k].now < cs[p].now)
  {
    var p: nat :| Forgotten(ms, cs, vs, cs[k].key, p, k) && cs[k].now <= ms[p][cs[k].key].reset;
    assert NeedsRoom(ms[p], cs[p]) && (Evicts(ms[p], cs[p]) || cs[k].now < cs[p].now);
  }

  // ----- a run in which forgetting shows -------------------------------------------------------------

  function Name(i: nat): Key {
    seq(i + 1, _ => 'x')
  }

  /** The first two keys have short windows, the others long ones; all open at instant 10. */
  function Length(i: nat): nat { if i < 2 then 10 else 100 }

  function Fill(n: nat): Windows {
    if n == 0 then map[] else Fill(n - 1)[Name(n - 1) := Window(1, 10 + Length(n - 1))]
  }

  function FillCall(i: nat): Call {
    Call(Name(i), 1, Length(i), 10)
  }

  lemma NameLength(i: nat)
    ensures |Name(i)| == i + 1
  {
  }

  /** What is in the filled map; keys are told apart by their length. */
  lemma {:induction false} FilledKey(n: nat, key: Key)
    ensures key in Fill(n) ==>
              1 <= |key| <= n && key == Name(|key| - 1) && Fill(n)[key] == Window(1, 10 + Length(|key| - 1))
  {
    hide Name, Length;
    if n > 0 {
      FilledKey(n - 1, key);
      NameLength(n - 1);
    }
  }

  lemma {:induction false} FilledName(n: nat, i: nat)
    requires i < n
    ensures Name(i) in Fill(n)
  {
    hide Name, Length;
    if i < n - 1 {
      FilledName(n - 1, i);
    }
  }

  lemma {:induction false} FilledSize(n: nat)
    ensures |Fill(n)| == n
  {
    hide Name, Length;
    if n > 0 {
      FilledSize(n - 1);
      FilledKey(n - 1, Name(n - 1));
      NameLength(n - 1);
      Adding(Fill(n - 1), Name(n - 1), Window(1, 10 + Length(n - 1)));
    }
  }

  lemma FillStep(n: nat)
    requires n < CAP
    ensures !Evicts(Fill(n), FillCall(n)) && After(Fill(n), FillCall(n), "") == Fill(n + 1)
    ensures Verdict(Fill(n), FillCall(n), "")
  {
    FilledSize(n);
    FilledKey(n, Name(n));
    NameLength(n);
    hide Name, Length, Purge;
  }

  /** A new key comes when the map is full and the two short windows are just over. */
  function Later(n: nat): Call { Call(Name(n), 1, 100, 21) }
  /** The first key again, with a reading one tick earlier, the last instant of its window. */
  function Again(): Call { Call(Name(0), 1, 10, 20) }

  function Purged(n: nat): Windows { Fill(n) - {Name(0)} - {Name(1)} }
  function Roomy(n: nat): Windows { Purged(n)[Name(n) := Window(1, 121)] }

  lemma PurgedSize(n: nat)
    requires n >= 2
    ensures |Purged(n)| == n - 2
  {
    FilledSize(n);
    FilledName(n, 0);
    FilledName(n, 1);
    NameLength(0);
    NameLength(1);
    hide Fill, Name;
    Dropping(Fill(n), Name(0));
    Dropping(Fill(n) - {Name(0)}, Name(1));
  }

  lemma PurgeIsPurged(n: nat)
    ensures Purge(Fill(n), 21) == Purged(n)
  {
    hide Fill;
    NameLength(0);
    NameLength(1);
    forall key | key in Fill(n) ensures key in Purged(n) <==> 21 <= Fill(n)[key].reset {
      FilledKey(n, key);
    }
    hide Name;
  }

  lemma Purges(n: nat)
    requires n == CAP
    ensures !Evicts(Fill(n), Later(n)) && After(Fill(n), Later(n), "") == Roomy(n)
    ensures |Roomy(n)| == n - 1 && Name(0) !in Roomy(n)
  {
    FilledSize(n);
    PurgedSize(n);
    PurgeIsPurged(n);
    FilledKey(n, Name(n));
    NameLength(n);
    NameLength(0);
    hide Fill, Name, Purge;
    assert Name(n) !in Purged(n);
    assert Roomy(n).Keys == Purged(n).Keys + {Name(n)};
  }

  lemma ComesBack(n: nat)
    requires n == CAP
    ensures !Evicts(Roomy(n), Again()) && Verdict(Roomy(n), Again(), "")
  {
    Purges(n);
    hide Roomy, Fill, Name, Purge;
  }

  function StateAt(n: nat, k: nat): Windows {
    if k <= n then Fill(k) else if k == n + 1 then Roomy(n) else After(Roomy(n), Again(), "")
  }

  function CallAt(n: nat, k: nat): Call {
    if k < n then FillCall(k) else if k == n then Later(n) else Again()
  }

  lemma StateStep(n: nat, k: nat)
    requires n == CAP && k < n + 2
    ensures !Evicts(StateAt(n, k), CallAt(n, k)) && StateAt(n, k + 1) == After(StateAt(n, k), CallAt(n, k), "")
  {
    hide Fill, Roomy, After, Evicts, Name, Again, Later, FillCall;
    if k < n {
      FillStep(k);
    } else if k == n {
      Purges(n);
    } else {
      ComesBack(n);
    }
  }

  lemma {:induction false} UnboundedFill(cs: seq<Call>, n: nat)
    requires n <= |cs| && forall i :: 0 <= i < n ==> cs[i] == FillCall(i)
    ensures Unbounded(cs[..n]) == Fill(n)
  {
    hide Name, Length, Unbounded, Bump, Entry;
    if n > 0 {
      UnboundedFill(cs, n - 1);
      UnboundedStep(cs, n - 1);
      FilledKey(n - 1, Name(n - 1));
      NameLength(n - 1);
      FirstBump(Fill(n - 1), FillCall(n - 1));
    } else {
      assert cs[..0] == [];
      NothingYet();
    }
  }

  lemma FirstBump(m: Windows, c: Call)
    requires c.key !in m && ZERO < c.now
    ensures Bump(Entry(m, c.key), c.now, c.window) == Window(1, c.now + c.window)
  {
  }

  lemma NothingYet()
    ensures Unbounded([]) == map[]
  {
  }

  lemma StillHeld(cs: seq<Call>, n: nat)
    requires n >= 2 && |cs| == n + 2 && (forall i :: 0 <= i < n ==> cs[i] == FillCall(i)) && cs[n] == Later(n)
    ensures !UnboundedVerdict(cs[..n + 1], Again())
  {
    UnboundedFill(cs, n);
    UnboundedStep(cs, n);
    FilledName(n, 0);
    FilledKey(n, Name(0));
    NameLength(0);
    NameLength(n);
    hide Fill, Unbounded, Name;
  }

  lemma CallsInTime(n: nat, k: nat)
    ensures ZERO < CallAt(n, k).now && 10 <= CallAt(n, k).now <= 21 && (k < n ==> CallAt(n, k).now == 10)
    ensures k > n ==> CallAt(n, k).now == 20
  {
  }

  ghost predicate IsShow(ms: seq<Windows>, cs: seq<Call>, vs: seq<Key>, n: nat) {
    && |cs| == n + 2 && |ms| == n + 3 && |vs| == n + 2
    && (forall k :: 0 <= k < |ms| ==> ms[k] == StateAt(n, k))
    && (forall k :: 0 <= k < |cs| ==> cs[k] == CallAt(n, k) && vs[k] == "")
  }

  lemma ShowIsRun(ms: seq<Windows>, cs: seq<Call>, vs: seq<Key>, n: nat)
    requires n == CAP && IsShow(ms, cs, vs, n)
    ensures Run(ms, cs, vs) && NoEviction(ms, cs)
    ensures forall i, j :: 0 <= i <= j < |cs| ==> cs[i].now <= cs[j].now + 1
  {
    assert StateAt(n, 0) == map[];
    hide StateAt, CallAt, After, Evicts;
    forall k | 0 <= k < |cs|
      ensures !Evicts(ms[k], cs[k]) && ms[k + 1] == After(ms[k], cs[k], vs[k]) && ZERO < cs[k].now
      ensures 10 <= cs[k].now <= 21 && (k < n ==> cs[k].now == 10) && (k > n ==> cs[k].now == 20)
    {
      StateStep(n, k);
      CallsInTime(n, k);
    }
  }

  lemma ShowNamed(ms: seq<Windows>, cs: seq<Call>, vs: seq<Key>, n: nat)
    requires n >= 2 && IsShow(ms, cs, vs, n)
    ensures ms[0] == Fill(0) && ms[n + 1] == Roomy(n) && vs[0] == "" && vs[n + 1] == ""
    ensures (forall i :: 0 <= i < n ==> cs[i] == FillCall(i)) && cs[n] == Later(n) && cs[n + 1] == Again()
  {
    hide Fill, Roomy, FillCall, Later, Again, After;
  }

  lemma ShowVerdicts(ms: seq<Windows>, cs: seq<Call>, vs: seq<Key>, n: nat)
    requires n == CAP && IsShow(ms, cs, vs, n)
    ensures cs[0] == FillCall(0) && cs[n + 1] == Again()
    ensures Verdict(ms[0], cs[0], vs[0]) && Verdict(ms[n + 1], cs[n + 1], vs[n + 1])
    ensures !UnboundedVerdict(cs[..n + 1], cs[n + 1])
  {
    hide Fill, Roomy, Verdict, UnboundedVerdict, Name, FillCall, Again, Later, StateAt, CallAt;
    FillStep(0);
    ComesBack(n);
    ShowNamed(ms, cs, vs, n);
    StillHeld(cs, n);
  }

  /** A map filled to its cap, a new key whose call purges the windows that are just over, and a
      call on one of their keys that had read the clock one tick before: it is let through,
      though its window was not over at its reading.  The unbounded limiter refuses it; and
      without any eviction a limit of one lets two attempts through in one window length. */
  lemma PurgeShows(n: nat) returns (ms: seq<Windows>, cs: seq<Call>, vs: seq<Key>)
    requires n == CAP
    ensures Run(ms, cs, vs) && NoEviction(ms, cs) && |cs| == n + 2
    ensures forall i, j :: 0 <= i <= j < |cs| ==> cs[i].now <= cs[j].now + 1
    ensures cs[0].key == cs[n + 1].key && cs[0].limit == cs[n + 1].limit == 1
    ensures cs[0].window == cs[n + 1].window == 10 && cs[n + 1].now == cs[0].now + 10
    ensures Verdict(ms[0], cs[0], vs[0]) && Verdict(ms[n + 1], cs[n + 1], vs[n + 1])
    ensures !UnboundedVerdict(cs[..n + 1], cs[n + 1])
  {
    hide Run, NoEviction, StateAt, CallAt, Verdict, UnboundedVerdict, Name;
    ms := seq(n + 3, k requires 0 <= k => StateAt(n, k));
    cs := seq(n + 2, k requires 0 <= k => CallAt(n, k));
    vs := seq(n + 2, k => "");
    assert IsShow(ms, cs, vs, n);
    hide IsShow;
    ShowIsRun(ms, cs, vs, n);
    ShowVerdicts(ms, cs, vs, n);
  }
}
