/** The limiter's bound with evictions is met: callers who mint new keys while the map is full
    get another full window for a key each time its window is the one evicted. */
module LimiterEvictions {
  import opened RateLimiter
  import opened LimiterSkew
  import opened LimiterMemory

  const K: Key := "k"

  /** The first `n` other keys, each with a window up to `end`. */
  function Others(n: nat, end: Time): Windows {
    if n == 0 then map[] else Others(n - 1, end)[Name(n - 1) := Window(1, end)]
  }

  lemma NotOurs(i: nat)
    ensures Name(i) != K && |Name(i)| == i + 1
  {
    assert Name(i)[0] == 'x';
  }

  lemma {:induction false} OtherKey(n: nat, end: Time, key: Key)
    ensures key in Others(n, end) ==> 1 <= |key| <= n && key != K && Others(n, end)[key] == Window(1, end)
  {
    hide Name;
    if n > 0 {
      OtherKey(n - 1, end, key);
      NotOurs(n - 1);
    }
  }

  lemma {:induction false} OthersSize(n: nat, end: Time)
    ensures |Others(n, end)| == n
  {
    hide Name;
    if n > 0 {
      OthersSize(n - 1, end);
      OtherKey(n - 1, end, Name(n - 1));
      NotOurs(n - 1);
      Adding(Others(n - 1, end), Name(n - 1), Window(1, end));
    }
  }

  /** The map with one more key, which is not among the others. */
  function With(n: nat, end: Time, key: Key, w: Window): Windows {
    Others(n, end)[key := w]
  }

  lemma WithSize(n: nat, end: Time, key: Key, w: Window)
    requires key == K || key == Name(n)
    ensures key !in Others(n, end) && |With(n, end, key, w)| == n + 1
    ensures forall now :: now <= end && now <= w.reset ==> Purge(With(n, end, key, w), now) == With(n, end, key, w)
    ensures With(n, end, key, w) - {key} == Others(n, end)
  {
    NotOurs(n);
    OtherKey(n, end, key);
    OthersSize(n, end);
    Adding(Others(n, end), key, w);
    hide Others, Name;
    forall now | now <= end && now <= w.reset
      ensures Purge(With(n, end, key, w), now) == With(n, end, key, w)
    {
      forall k | k in With(n, end, key, w) ensures now <= With(n, end, key, w)[k].reset {
        OtherKey(n, end, k);
      }
    }
  }

  // ----- single calls ------------------------------------------------------------------------

  /** A call on a key that the map holds makes no room. */
  lemma Serves(m: Windows, c: Call, v: Key)
    requires c.key in m && c.now <= m[c.key].reset
    ensures !Evicts(m, c) && After(m, c, v) == m[c.key := m[c.key].(count := m[c.key].count + 1)]
    ensures Verdict(m, c, v) <==> m[c.key].count + 1 <= c.limit
  {
  }

  lemma Reopens(m: Windows, c: Call, v: Key)
    requires c.key in m && c.now > m[c.key].reset && c.limit >= 1
    ensures !Evicts(m, c) && After(m, c, v) == m[c.key := Window(1, c.now + c.window)] && Verdict(m, c, v)
  {
  }

  lemma Enters(m: Windows, c: Call, v: Key)
    requires c.key !in m && |m| < CAP && ZERO < c.now && c.limit >= 1
    ensures !Evicts(m, c) && After(m, c, v) == m[c.key := Window(1, c.now + c.window)] && Verdict(m, c, v)
  {
  }

  /** A call on a new key when the map is full of live windows: one of them goes. */
  lemma TakesPlace(n: nat, end: Time, gone: Key, w: Window, c: Call)
    requires n + 1 == CAP && (gone == K || gone == Name(n)) && (c.key == K || c.key == Name(n)) && c.key != gone
    requires ZERO < c.now && c.now <= end && c.now <= w.reset && c.limit >= 1
    ensures var m := With(n, end, gone, w);
            && Evicts(m, c) && gone in Purge(m, c.now) && Verdict(m, c, gone)
            && After(m, c, gone) == With(n, end, c.key, Window(1, c.now + c.window))
  {
    WithSize(n, end, gone, w);
    WithSize(n, end, c.key, w);
    hide Others, Name, Purge;
  }

  // ----- the run, call by call -----------------------------------------------------------------

  /** A run in lock order up to the reading `now`, its last map, the evictions of our key in it and
      the attempts it allows with readings from `window + 1` to `2 * window + 1`. */
  ghost predicate Reached(ms: seq<Windows>, cs: seq<Call>, vs: seq<Key>, limit: nat, window: nat, now: Time, m: Windows,
                          evicted: nat, allowed: nat) {
    && Run(ms, cs, vs) && ms[|cs|] == m && Calls(cs, limit, window, now)
    && Evictions(ms, cs, vs, K, 0, |cs|) == evicted
    && AllowedIn(ms, cs, vs, K, window, window + 1, 0, |cs|) == allowed
  }

  ghost predicate Calls(cs: seq<Call>, limit: nat, window: nat, now: Time) {
    InOrder(cs) && Uniform(cs, K, limit, window) && forall p :: 0 <= p < |cs| ==> cs[p].now <= now
  }

  lemma CallsGrow(cs: seq<Call>, limit: nat, window: nat, now: Time, c: Call)
    requires Calls(cs, limit, window, now) && now <= c.now
    requires c.key == K ==> c.limit == limit && c.window == window
    ensures Calls(cs + [c], limit, window, c.now)
  {
  }

  lemma {:induction false} EvictionsOfPrefix(ms: seq<Windows>, cs: seq<Call>, vs: seq<Key>, ms': seq<Windows>,
                                             cs': seq<Call>, vs': seq<Key>, key: Key, j: nat)
    requires Run(ms, cs, vs) && Run(ms', cs', vs') && ms <= ms' && cs <= cs' && vs <= vs' && j <= |cs|
    ensures Evictions(ms', cs', vs', key, 0, j) == Evictions(ms, cs, vs, key, 0, j)
  {
    hide Evicts, After;
    if j > 0 {
      EvictionsOfPrefix(ms, cs, vs, ms', cs', vs', key, j - 1);
      assert ms'[j - 1] == ms[j - 1] && cs'[j - 1] == cs[j - 1] && vs'[j - 1] == vs[j - 1];
    }
  }

  /** One call more. */
  lemma Grow(ms: seq<Windows>, cs: seq<Call>, vs: seq<Key>, limit: nat, window: nat, now: Time, m: Windows,
             evicted: nat, allowed: nat, c: Call, v: Key)
    returns (ms': seq<Windows>, cs': seq<Call>, vs': seq<Key>)
    requires Reached(ms, cs, vs, limit, window, now, m, evicted, allowed) && ZERO < c.now && now <= c.now
    requires c.key == K ==> c.limit == limit && c.window == window
    requires Evicts(m, c) ==> v in Purge(m, c.now)
    ensures Reached(ms', cs', vs', limit, window, c.now, After(m, c, v), evicted + One(Evicts(m, c) && v == K),
                    allowed + One(c.key == K && Verdict(m, c, v) && window + 1 <= c.now <= window + 1 + window))
  {
    hide Run, Evicts, After, Verdict, Purge, Evictions, AllowedIn, Calls;
    Lengths(ms, cs, vs);
    RunGrows(ms, cs, vs, c, v);
    CallsGrow(cs, limit, window, now, c);
    ms', cs', vs' := ms + [After(m, c, v)], cs + [c], vs + [v];
    EvictionsOfPrefix(ms, cs, vs, ms', cs', vs', K, |cs|);
    CountsOfPrefix(ms, cs, vs, ms', cs', vs', K, window, window + 1, |cs|);
    EvictionsStep(ms', cs', vs', K, 0, |cs|);
    AllowedInStep(ms', cs', vs', K, window, window + 1, 0, |cs|);
    assert ms'[|cs|] == m && cs'[|cs|] == c && vs'[|cs|] == v;
  }

  lemma Starting(limit: nat, window: nat) returns (ms: seq<Windows>, cs: seq<Call>, vs: seq<Key>)
    ensures Reached(ms, cs, vs, limit, window, 1, map[], 0, 0)
  {
    ms, cs, vs := [map[]], [], [];
  }

  /** Our key's first attempt, and the map filled around it. */
  lemma {:induction false} Filling(limit: nat, window: nat, n: nat)
    returns (ms: seq<Windows>, cs: seq<Call>, vs: seq<Key>)
    requires limit >= 1 && window >= 1 && n + 1 <= CAP
    ensures Reached(ms, cs, vs, limit, window, 1, With(n, window + 2, K, Window(1, window + 1)), 0, 0)
  {
    hide Reached, Name, With, Others;
    var w := Window(1, window + 1);
    if n == 0 {
      ms, cs, vs := Starting(limit, window);
      WithNone(window + 2, w);
      ms, cs, vs := EnterAtOne(ms, cs, vs, limit, window, map[], Call(K, limit, window, 1));
    } else {
      ms, cs, vs := Filling(limit, window, n - 1);
      NotOurs(n - 1);
      WithRoom(n - 1, window + 2, w);
      WithOneMore(n - 1, window + 2, w);
      ms, cs, vs := EnterAtOne(ms, cs, vs, limit, window, With(n - 1, window + 2, K, w),
                               Call(Name(n - 1), 1, window + 1, 1));
    }
  }

  /** A new key, at the first reading, when there is room. */
  lemma EnterAtOne(ms: seq<Windows>, cs: seq<Call>, vs: seq<Key>, limit: nat, window: nat, m: Windows, c: Call)
    returns (ms': seq<Windows>, cs': seq<Call>, vs': seq<Key>)
    requires Reached(ms, cs, vs, limit, window, 1, m, 0, 0) && window >= 1
    requires c.key !in m && |m| < CAP && c.now == 1 && c.limit >= 1
    requires c.key == K ==> c.limit == limit && c.window == window
    ensures Reached(ms', cs', vs', limit, window, 1, m[c.key := Window(1, 1 + c.window)], 0, 0)
  {
    Enters(m, c, "");
    hide Reached, Evicts, After, Verdict, Purge;
    ms', cs', vs' := Grow(ms, cs, vs, limit, window, 1, m, 0, 0, c, "");
  }

  lemma WithRoom(n: nat, end: Time, w: Window)
    ensures |With(n, end, K, w)| == n + 1
  {
    WithSize(n, end, K, w);
    hide With, Others, Purge;
  }

  lemma WithNone(end: Time, w: Window)
    ensures With(0, end, K, w) == map[K := w]
  {
  }

  lemma WithOneMore(n: nat, end: Time, w: Window)
    ensures Name(n) !in With(n, end, K, w) && With(n, end, K, w)[Name(n) := Window(1, end)] == With(n + 1, end, K, w)
  {
    hide Name;
    NotOurs(n);
    OtherKey(n, end, Name(n));
  }

  /** The attempts left in our key's window, all of them at one reading. */
  lemma {:induction false} Using(ms: seq<Windows>, cs: seq<Call>, vs: seq<Key>, limit: nat, window: nat, n: nat,
                                 was: Time, now: Time, reset: Time, count: nat, evicted: nat, allowed: nat)
    returns (ms': seq<Windows>, cs': seq<Call>, vs': seq<Key>, last: Time)
    requires 1 <= count <= limit && 1 <= was <= now <= reset && window + 1 <= now <= window + 1 + window
    requires Reached(ms, cs, vs, limit, window, was, With(n, window + 2, K, Window(count, reset)), evicted, allowed)
    ensures last <= now
    ensures Reached(ms', cs', vs', limit, window, last, With(n, window + 2, K, Window(limit, reset)), evicted,
                    allowed + limit - count)
    decreases limit - count
  {
    hide Reached, Others;
    if count == limit {
      ms', cs', vs', last := ms, cs, vs, was;
      return;
    }
    var m, c := With(n, window + 2, K, Window(count, reset)), Call(K, limit, window, now);
    Serves(m, c, "");
    hide Evicts, After, Verdict, Purge;
    ms', cs', vs' := Grow(ms, cs, vs, limit, window, was, m, evicted, allowed, c, "");
    assert m[K := Window(count + 1, reset)] == With(n, window + 2, K, Window(count + 1, reset));
    ms', cs', vs', last := Using(ms', cs', vs', limit, window, n, now, now, reset, count + 1, evicted, allowed + 1);
  }

  /** Two windows of our key, but for the attempt that opened the first. */
  lemma TwoWindows(limit: nat, window: nat, n: nat) returns (ms: seq<Windows>, cs: seq<Call>, vs: seq<Key>, last: Time)
    requires limit >= 1 && window >= 1 && n + 1 == CAP
    ensures last <= window + 2
    ensures Reached(ms, cs, vs, limit, window, last, With(n, window + 2, K, Window(limit, 2 * window + 2)), 0,
                    2 * limit - 1)
  {
    hide Reached, Others;
    ms, cs, vs := Filling(limit, window, n);
    ms, cs, vs, last := Using(ms, cs, vs, limit, window, n, 1, window + 1, window + 1, 1, 0, 0);
    var m, c := With(n, window + 2, K, Window(limit, window + 1)), Call(K, limit, window, window + 2);
    Reopens(m, c, "");
    hide Evicts, After, Verdict, Purge;
    ms, cs, vs := Grow(ms, cs, vs, limit, window, last, m, 0, limit - 1, c, "");
    assert m[K := Window(1, 2 * window + 2)] == With(n, window + 2, K, Window(1, 2 * window + 2));
    ms, cs, vs, last := Using(ms, cs, vs, limit, window, n, window + 2, window + 2, 2 * window + 2, 1, 0, limit);
  }

  /** A new key evicts ours, ours comes back in its place, and has a full window. */
  lemma OneEviction(ms: seq<Windows>, cs: seq<Call>, vs: seq<Key>, limit: nat, window: nat, n: nat, was: Time,
                    evicted: nat, allowed: nat)
    returns (ms': seq<Windows>, cs': seq<Call>, vs': seq<Key>, last: Time)
    requires limit >= 1 && window >= 1 && n + 1 == CAP && was <= window + 2
    requires Reached(ms, cs, vs, limit, window, was, With(n, window + 2, K, Window(limit, 2 * window + 2)), evicted,
                     allowed)
    ensures last <= window + 2
    ensures Reached(ms', cs', vs', limit, window, last, With(n, window + 2, K, Window(limit, 2 * window + 2)),
                    evicted + 1, allowed + limit)
  {
    hide Reached, Others, Name;
    var now, w := window + 2, Window(limit, 2 * window + 2);
    var stranger, back := Call(Name(n), 1, window, now), Call(K, limit, window, now);
    NotOurs(n);
    TakesPlace(n, window + 2, K, w, stranger);
    TakesPlace(n, window + 2, Name(n), Window(1, 2 * window + 2), back);
    hide Evicts, After, Verdict, Purge;
    ms', cs', vs' := Grow(ms, cs, vs, limit, window, was, With(n, window + 2, K, w), evicted, allowed, stranger, K);
    ms', cs', vs' := Grow(ms', cs', vs', limit, window, now, With(n, window + 2, Name(n), Window(1, 2 * window + 2)),
                          evicted + 1, allowed, back, Name(n));
    ms', cs', vs', last := Using(ms', cs', vs', limit, window, n, now, now, 2 * window + 2, 1, evicted + 1,
                                 allowed + 1);
  }

  lemma {:induction false} Evicting(limit: nat, window: nat, n: nat, e: nat)
    returns (ms: seq<Windows>, cs: seq<Call>, vs: seq<Key>, last: Time)
    requires limit >= 1 && window >= 1 && n + 1 == CAP
    ensures last <= window + 2
    ensures Reached(ms, cs, vs, limit, window, last, With(n, window + 2, K, Window(limit, 2 * window + 2)), e,
                    (2 + e) * limit - 1)
  {
    hide Reached, With;
    if e == 0 {
      ms, cs, vs, last := TwoWindows(limit, window, n);
    } else {
      ms, cs, vs, last := Evicting(limit, window, n, e - 1);
      ms, cs, vs, last := OneEviction(ms, cs, vs, limit, window, n, last, e - 1, (1 + e) * limit - 1);
      assert (1 + e) * limit - 1 + limit == (2 + e) * limit - 1;
    }
  }

  /** No smaller bound would do, with any number of evictions: for every limit, window and e there
      is a run in lock order in which our key is evicted e times and a closed interval of one
      window length sees (2 + e) * limit - 1 of its attempts allowed. */
  lemma EvictionBoundIsMet(limit: nat, window: nat, e: nat) returns (ms: seq<Windows>, cs: seq<Call>, vs: seq<Key>)
    requires limit >= 1 && window >= 1
    ensures Run(ms, cs, vs) && InOrder(cs) && Uniform(cs, K, limit, window)
    ensures Evictions(ms, cs, vs, K, 0, |cs|) == e
    ensures AllowedIn(ms, cs, vs, K, window, window + 1, 0, |cs|) == (2 + e) * limit - 1
  {
    hide With, Run, InOrder, Uniform, Evictions, AllowedIn;
    var last;
    ms, cs, vs, last := Evicting(limit, window, CAP - 1, e);
  }
}
