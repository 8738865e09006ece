/** The limiter under clock readings out of order.  allowAttempt reads the clock before it takes
    the lock, so a call may carry an earlier reading than one that took the lock before it.
    What a key then gets in one window length is bounded by how far the readings may be apart,
    and the bound is met. */
module LimiterSkew {
  import opened RateLimiter

  /** No call carries a reading more than `d` before that of a call that took the lock earlier. */
  ghost predicate Skewed(cs: seq<Call>, d: nat) {
    forall i, j :: 0 <= i <= j < |cs| ==> cs[i].now <= cs[j].now + d
  }

  /** Attempts on `key` with readings from `a` to `a + window` that the calls from `i` up to `j` allow. */
  ghost function AllowedIn(ms: seq<Windows>, cs: seq<Call>, vs: seq<Key>, key: Key, window: nat, a: Time, i: nat,
                           j: nat): nat
    requires Run(ms, cs, vs) && i <= j <= |cs|
    decreases j
  {
    if i == j then 0
    else
      AllowedIn(ms, cs, vs, key, window, a, i, j - 1) +
      One(cs[j - 1].key == key && Verdict(ms[j - 1], cs[j - 1], vs[j - 1]) && a <= cs[j - 1].now <= a + window)
  }

  /** The starts of the windows `key` has from `i` up to `j`: of the one it has at `i`, if any,
      and of those opened, in order. */
  ghost function Starts(ms: seq<Windows>, cs: seq<Call>, vs: seq<Key>, key: Key, window: nat, i: nat, j: nat): seq<Time>
    requires Run(ms, cs, vs) && i <= j <= |cs|
    decreases j
  {
    if i == j then (if key in ms[i] then [ms[i][key].reset - window] else [])
    else
      Starts(ms, cs, vs, key, window, i, j - 1) +
      (if cs[j - 1].key == key && Opens(ms[j - 1], cs[j - 1], vs[j - 1]) then [cs[j - 1].now] else [])
  }

  // ----- how many windows there is room for ------------------------------------------------

  /** How many of the windows after `f`, up to `l`, were opened before the one before was over. */
  ghost function Overlaps(starts: seq<Time>, window: nat, f: nat, l: nat): nat
    requires l < |starts|
    decreases l
  {
    if l <= f then 0 else Overlaps(starts, window, f, l - 1) + One(starts[l] <= starts[l - 1] + window)
  }

  ghost function Premature(starts: seq<Time>, window: nat): nat {
    if starts == [] then 0 else Overlaps(starts, window, 0, |starts| - 1)
  }

  ghost function CountIn(starts: seq<Time>, lo: Time, hi: Time): nat {
    if starts == [] then 0
    else CountIn(starts[..|starts| - 1], lo, hi) + One(lo <= starts[|starts| - 1] <= hi)
  }

  ghost predicate FallsBy(starts: seq<Time>, d: nat) {
    forall n :: 0 < n < |starts| ==> starts[n - 1] <= starts[n] + d
  }

  lemma {:induction false} OverlapsWithin(starts: seq<Time>, window: nat, f: nat, l: nat)
    requires f <= l < |starts|
    ensures Overlaps(starts, window, f, l) <= Overlaps(starts, window, 0, l)
    decreases l
  {
    if f < l {
      OverlapsWithin(starts, window, f, l - 1);
    }
  }

  lemma {:induction false} OverlapsGrow(starts: seq<Time>, window: nat, l: nat, m: nat)
    requires l <= m < |starts|
    ensures Overlaps(starts, window, 0, l) <= Overlaps(starts, window, 0, m)
    decreases m
  {
    if l < m {
      OverlapsGrow(starts, window, l, m - 1);
    }
  }

  /** Windows that do not overlap are more than a window length apart; one that overlaps may
      start before the one it follows, by the skew. */
  lemma {:induction false} Spread(starts: seq<Time>, window: nat, d: nat, f: nat, l: nat)
    requires FallsBy(starts, d) && f <= l < |starts|
    ensures var p := Overlaps(starts, window, f, l);
            starts[l] - starts[f] >= (l - f - p) * (window + 1) - p * d
    decreases l
  {
    if f < l {
      Spread(starts, window, d, f, l - 1);
      var p, gap, step := Overlaps(starts, window, f, l - 1), starts[l - 1] - starts[f], starts[l] - starts[l - 1];
      assert starts[l - 1] <= starts[l] + d && Overlaps(starts, window, f, l) == p + One(step <= window);
      hide FallsBy, Overlaps;
      SpreadStep(l - 1 - f, p, window, d, gap, step);
    }
  }

  /** One window more: a window length further, or one more overlap. */
  lemma SpreadStep(k: int, p: nat, window: nat, d: nat, gap: int, step: int)
    requires gap >= (k - p) * (window + 1) - p * d && step + d >= 0
    ensures var q := p + One(step <= window); gap + step >= (k + 1 - q) * (window + 1) - q * d
  {
    assert (p + 1) * d == p * d + d;
    assert (k + 1 - p) * (window + 1) == (k - p) * (window + 1) + (window + 1);
  }

  /** The windows that start in an interval lie between the first and the last of them. */
  lemma {:induction false} Extremes(starts: seq<Time>, lo: Time, hi: Time) returns (f: nat, l: nat)
    requires CountIn(starts, lo, hi) > 0
    ensures f <= l < |starts| && lo <= starts[f] <= hi && lo <= starts[l] <= hi
    ensures CountIn(starts, lo, hi) <= l - f + 1
  {
    var n := |starts| - 1;
    if CountIn(starts[..n], lo, hi) > 0 {
      f, l := Extremes(starts[..n], lo, hi);
      if lo <= starts[n] <= hi {
        l := n;
      }
    } else {
      f, l := n, n;
    }
  }

  lemma Quotient(x: int, y: nat, w: nat)
    requires x * (w + 1) <= y
    ensures x <= y / (w + 1)
  {
    assert (y / (w + 1) + 1) * (w + 1) > y;
  }

  /** How many windows can start within `length` when `e` of them overlap the one before. */
  function Fit(length: nat, window: nat, d: nat, e: nat): nat {
    1 + e + (length + e * d) / (window + 1)
  }

  lemma Times(a: nat, b: nat, c: nat)
    requires a <= b
    ensures a * c <= b * c
  {
    assert b * c == a * c + (b - a) * c;
  }

  lemma QuotientGrows(x: nat, y: nat, w: nat)
    requires x <= y
    ensures x / (w + 1) <= y / (w + 1)
  {
    assert x == (x / (w + 1)) * (w + 1) + x % (w + 1);
    Quotient(x / (w + 1), y, w);
  }

  lemma CountFits(starts: seq<Time>, window: nat, d: nat, lo: Time, length: nat)
    requires FallsBy(starts, d)
    ensures CountIn(starts, lo, lo + length) <= Fit(length, window, d, Premature(starts, window))
  {
    var e := Premature(starts, window);
    if CountIn(starts, lo, lo + length) > 0 {
      var f, l := Extremes(starts, lo, lo + length);
      var p := Overlaps(starts, window, f, l);
      Spread(starts, window, d, f, l);
      OverlapsWithin(starts, window, f, l);
      OverlapsGrow(starts, window, l, |starts| - 1);
      hide FallsBy, CountIn, Overlaps, Premature, Fit;
      FitCovers(l - f, p, e, length, window, d);
    }
  }

  lemma FitCovers(k: nat, p: nat, e: nat, length: nat, window: nat, d: nat)
    requires (k - p) * (window + 1) - p * d <= length && p <= e
    ensures k + 1 <= Fit(length, window, d, e)
  {
    Times(p, e, d);
    Quotient(k - p, length + p * d, window);
    QuotientGrows(length + p * d, length + e * d, window);
    hide *;
  }

  // ----- windows and the calls they serve ------------------------------------------------------

  /** A window in the map was opened by an earlier call, whose reading is its start. */
  lemma {:induction false} WindowWasOpened(ms: seq<Windows>, cs: seq<Call>, vs: seq<Key>, key: Key, limit: nat,
                                           window: nat, k: nat) returns (p: nat)
    requires Run(ms, cs, vs) && Uniform(cs, key, limit, window) && k < |ms| && key in ms[k]
    ensures p < k && cs[p].now == ms[k][key].reset - window
  {
    assert k > 0;
    var m, c, v := ms[k - 1], cs[k - 1], vs[k - 1];
    assert ms[k] == After(m, c, v) && ZERO < c.now;
    if c.key == key && Opens(m, c, v) {
      p := k - 1;
    } else {
      p := WindowWasOpened(ms, cs, vs, key, limit, window, k - 1);
    }
  }

  /** Every start is the reading of an earlier call. */
  lemma {:induction false} StartsAreReadings(ms: seq<Windows>, cs: seq<Call>, vs: seq<Key>, key: Key, limit: nat,
                                             window: nat, i: nat, j: nat)
    requires Run(ms, cs, vs) && Uniform(cs, key, limit, window) && i <= j <= |cs|
    ensures forall x :: x in Starts(ms, cs, vs, key, window, i, j) ==> exists p :: 0 <= p < j && cs[p].now == x
    decreases j
  {
    if i < j {
      StartsAreReadings(ms, cs, vs, key, limit, window, i, j - 1);
    } else if key in ms[i] {
      var p := WindowWasOpened(ms, cs, vs, key, limit, window, i);
    }
  }

  lemma {:induction false} StartsFallBySkew(ms: seq<Windows>, cs: seq<Call>, vs: seq<Key>, key: Key, limit: nat,
                                            window: nat, d: nat, i: nat, j: nat)
    requires Run(ms, cs, vs) && Uniform(cs, key, limit, window) && Skewed(cs, d) && i <= j <= |cs|
    ensures FallsBy(Starts(ms, cs, vs, key, window, i, j), d)
    decreases j
  {
    hide Run, Uniform, Opens, Starts, Skewed;
    if i < j {
      StartsFallBySkew(ms, cs, vs, key, limit, window, d, i, j - 1);
      StartsAreReadings(ms, cs, vs, key, limit, window, i, j - 1);
      StartsStep(ms, cs, vs, key, window, i, j - 1);
      var before := Starts(ms, cs, vs, key, window, i, j - 1);
      if before != [] {
        assert before[|before| - 1] in before;
        var p :| 0 <= p < j - 1 && cs[p].now == before[|before| - 1];
        NotFarBehind(cs, d, p, j - 1);
      }
    } else {
      StartsAtFirst(ms, cs, vs, key, window, i);
    }
  }

  lemma NotFarBehind(cs: seq<Call>, d: nat, p: nat, k: nat)
    requires Skewed(cs, d) && p <= k < |cs|
    ensures cs[p].now <= cs[k].now + d
  {
  }

  lemma StartsAtFirst(ms: seq<Windows>, cs: seq<Call>, vs: seq<Key>, key: Key, window: nat, i: nat)
    requires Run(ms, cs, vs) && i <= |cs|
    ensures |ms| == |cs| + 1
    ensures Starts(ms, cs, vs, key, window, i, i) == if key in ms[i] then [ms[i][key].reset - window] else []
  {
  }

  lemma StartsStep(ms: seq<Windows>, cs: seq<Call>, vs: seq<Key>, key: Key, window: nat, i: nat, j: nat)
    requires Run(ms, cs, vs) && i <= j < |cs|
    ensures |ms| == |cs| + 1 && |vs| == |cs|
    ensures var before := Starts(ms, cs, vs, key, window, i, j);
            Starts(ms, cs, vs, key, window, i, j + 1) ==
            if cs[j].key == key && Opens(ms[j], cs[j], vs[j]) then before + [cs[j].now] else before
  {
    hide Opens, After;
    var before := Starts(ms, cs, vs, key, window, i, j);
    assert before + [] == before;
  }

  lemma AllowedInStep(ms: seq<Windows>, cs: seq<Call>, vs: seq<Key>, key: Key, window: nat, a: Time, i: nat, j: nat)
    requires Run(ms, cs, vs) && i <= j < |cs|
    ensures |ms| == |cs| + 1 && |vs| == |cs|
    ensures AllowedIn(ms, cs, vs, key, window, a, i, j + 1) ==
            AllowedIn(ms, cs, vs, key, window, a, i, j) +
            One(cs[j].key == key && Verdict(ms[j], cs[j], vs[j]) && a <= cs[j].now <= a + window)
  {
    hide Verdict, After;
  }

  lemma UniformAt(cs: seq<Call>, key: Key, limit: nat, window: nat, k: nat)
    requires Uniform(cs, key, limit, window) && k < |cs| && cs[k].key == key
    ensures cs[k].limit == limit && cs[k].window == window
  {
  }

  /** What the window of the key can still allow with readings from `a` to `a + window`: nothing,
      when its start is too early or too late for any. */
  ghost function LeftIn(m: Windows, key: Key, limit: nat, window: nat, a: Time, d: nat): nat {
    if key in m && a - window <= m[key].reset - window <= a + window + d then Left(m, key, limit) else 0
  }

  lemma OthersLeaveIt(m: Windows, c: Call, v: Key, key: Key, limit: nat, window: nat, a: Time, d: nat)
    requires c.key != key
    ensures LeftIn(After(m, c, v), key, limit, window, a, d) <= LeftIn(m, key, limit, window, a, d)
  {
  }

  /** What a window that starts at `start` can give to the readings from `a` to `a + window`. */
  ghost function Share(start: Time, limit: nat, window: nat, a: Time, d: nat): nat
    requires limit >= 1
  {
    (if a - window <= start <= a + window + d then limit - 1 else 0) + One(a <= start <= a + window)
  }

  ghost function Shares(starts: seq<Time>, limit: nat, window: nat, a: Time, d: nat): nat
    requires limit >= 1
  {
    CountIn(starts, a - window, a + window + d) * (limit - 1) + CountIn(starts, a, a + window)
  }

  lemma SharesLast(starts: seq<Time>, x: Time, limit: nat, window: nat, a: Time, d: nat)
    requires limit >= 1
    ensures Shares(starts + [x], limit, window, a, d) ==
            Shares(starts, limit, window, a, d) + Share(x, limit, window, a, d)
  {
    CountInLast(starts, x, a - window, a + window + d);
    CountInLast(starts, x, a, a + window);
    OneMore(CountIn(starts, a - window, a + window + d), a - window <= x <= a + window + d, limit);
  }

  lemma OpeningGives(m: Windows, c: Call, v: Key, limit: nat, window: nat, a: Time, d: nat)
    requires c.limit == limit && c.window == window && limit >= 1 && Opens(m, c, v)
    ensures One(Verdict(m, c, v) && a <= c.now <= a + window) + LeftIn(After(m, c, v), c.key, limit, window, a, d) <=
            Share(c.now, limit, window, a, d)
  {
  }

  lemma ServingTakes(m: Windows, c: Call, v: Key, limit: nat, window: nat, a: Time, d: nat)
    requires c.limit == limit && ZERO < c.now && !Opens(m, c, v)
    requires c.key in m ==> m[c.key].reset - window <= c.now + d
    ensures One(Verdict(m, c, v) && a <= c.now <= a + window) + LeftIn(After(m, c, v), c.key, limit, window, a, d) <=
            LeftIn(m, c.key, limit, window, a, d)
  {
  }

  lemma CountInLast(starts: seq<Time>, x: Time, lo: Time, hi: Time)
    ensures CountIn(starts + [x], lo, hi) == CountIn(starts, lo, hi) + One(lo <= x <= hi)
  {
    assert (starts + [x])[..|starts|] == starts;
  }

  lemma OneMore(n: nat, b: bool, limit: nat)
    requires limit >= 1
    ensures (n + One(b)) * (limit - 1) == n * (limit - 1) + One(b) * (limit - 1)
  {
  }

  lemma FoundWindow(m: Windows, key: Key, limit: nat, window: nat, a: Time, d: nat)
    requires limit >= 1 && (key in m ==> m[key].count >= 1)
    ensures var starts := if key in m then [m[key].reset - window] else [];
            LeftIn(m, key, limit, window, a, d) <= Shares(starts, limit, window, a, d)
  {
    if key in m {
      SharesLast([], m[key].reset - window, limit, window, a, d);
      assert [] + [m[key].reset - window] == [m[key].reset - window];
      hide Shares;
    }
  }

  lemma WindowIsNotLate(ms: seq<Windows>, cs: seq<Call>, vs: seq<Key>, key: Key, limit: nat, window: nat, d: nat,
                        k: nat)
    requires Run(ms, cs, vs) && Uniform(cs, key, limit, window) && Skewed(cs, d) && k < |cs|
    ensures key in ms[k] ==> ms[k][key].reset - window <= cs[k].now + d
  {
    if key in ms[k] {
      var p := WindowWasOpened(ms, cs, vs, key, limit, window, k);
    }
  }

  /** Allowed attempts come out of the windows that can have served them; a window whose opening
      reading is outside the interval has spent one attempt outside it. */
  lemma {:induction false} AllowedPerWindow(ms: seq<Windows>, cs: seq<Call>, vs: seq<Key>, key: Key, limit: nat,
                                            window: nat, d: nat, a: Time, i: nat, j: nat)
    requires Run(ms, cs, vs) && Uniform(cs, key, limit, window) && Skewed(cs, d) && i <= j <= |cs| && limit >= 1
    ensures var starts := Starts(ms, cs, vs, key, window, i, j);
            AllowedIn(ms, cs, vs, key, window, a, i, j) + LeftIn(ms[j], key, limit, window, a, d) <=
            Shares(starts, limit, window, a, d)
    decreases j
  {
    hide *;
    if i == j {
      StartsAtFirst(ms, cs, vs, key, window, i);
      WindowsAreUsed(ms, cs, vs, i);
      NothingAllowed(ms, cs, vs, key, window, a, i);
      FoundWindow(ms[i], key, limit, window, a, d);
    } else {
      AllowedPerWindow(ms, cs, vs, key, limit, window, d, a, i, j - 1);
      StepOf(ms, cs, vs, j - 1);
      AllowedInStep(ms, cs, vs, key, window, a, i, j - 1);
      StartsStep(ms, cs, vs, key, window, i, j - 1);
      if cs[j - 1].key == key {
        UniformAt(cs, key, limit, window, j - 1);
      }
      WindowIsNotLate(ms, cs, vs, key, limit, window, d, j - 1);
      CallTakesShare(ms[j - 1], cs[j - 1], vs[j - 1], key, limit, window, a, d,
                     Starts(ms, cs, vs, key, window, i, j - 1));
    }
  }

  lemma NothingAllowed(ms: seq<Windows>, cs: seq<Call>, vs: seq<Key>, key: Key, window: nat, a: Time, i: nat)
    requires Run(ms, cs, vs) && i <= |cs|
    ensures AllowedIn(ms, cs, vs, key, window, a, i, i) == 0
  {
  }

  /** One call: what it allows in the interval comes out of the window it finds or opens. */
  lemma CallTakesShare(m: Windows, c: Call, v: Key, key: Key, limit: nat, window: nat, a: Time, d: nat,
                       before: seq<Time>)
    requires ZERO < c.now && limit >= 1 && (c.key == key ==> c.limit == limit && c.window == window)
    requires key in m ==> m[key].reset - window <= c.now + d
    ensures var after := if c.key == key && Opens(m, c, v) then before + [c.now] else before;
            One(c.key == key && Verdict(m, c, v) && a <= c.now <= a + window) +
            LeftIn(After(m, c, v), key, limit, window, a, d) + Shares(before, limit, window, a, d) <=
            LeftIn(m, key, limit, window, a, d) + Shares(after, limit, window, a, d)
  {
    hide After, Opens, Verdict, LeftIn, Shares;
    if c.key != key {
      OthersLeaveIt(m, c, v, key, limit, window, a, d);
    } else if Opens(m, c, v) {
      OpeningGives(m, c, v, limit, window, a, d);
      SharesLast(before, c.now, limit, window, a, d);
    } else {
      ServingTakes(m, c, v, limit, window, a, d);
    }
  }

  /** In calls whose readings are out of order by at most `d`, a key gets at most n * (limit - 1)
      + o attempts with readings in a closed interval of one window length, where n windows can
      have served it and o of them start in it.  If no window of the key was opened before the
      one before was over, n is 1 + (2 * window + d) / (window + 1) and o is 1.  And with readings
      in lock order the bound is (2 + e) * limit - 1, e being the random evictions of the key. */
  lemma AllowedPerSkewedInterval(ms: seq<Windows>, cs: seq<Call>, vs: seq<Key>, key: Key, limit: nat, window: nat,
                                 d: nat, a: Time, i: nat, j: nat)
    requires Run(ms, cs, vs) && Uniform(cs, key, limit, window) && Skewed(cs, d) && i <= j <= |cs| && limit >= 1
    ensures var e := Premature(Starts(ms, cs, vs, key, window, i, j), window);
            var n, o := Fit(2 * window + d, window, d, e), Fit(window, window, d, e);
            AllowedIn(ms, cs, vs, key, window, a, i, j) <= n * (limit - 1) + o
    ensures Premature(Starts(ms, cs, vs, key, window, i, j), window) == 0 ==>
              AllowedIn(ms, cs, vs, key, window, a, i, j) <= Most(limit, window, d)
    ensures InOrder(cs) && window >= 1 ==>
              AllowedIn(ms, cs, vs, key, window, a, i, j) <= (2 + Evictions(ms, cs, vs, key, i, j)) * limit - 1
  {
    if InOrder(cs) && window >= 1 {
      AllowedInOrder(ms, cs, vs, key, limit, window, a, i, j);
    }
    hide Run, Uniform, Skewed, AllowedIn, Starts, Premature, Shares, LeftIn, FallsBy, Fit, Most;
    var starts := Starts(ms, cs, vs, key, window, i, j);
    AllowedPerWindow(ms, cs, vs, key, limit, window, d, a, i, j);
    StartsFallBySkew(ms, cs, vs, key, limit, window, d, i, j);
    SharesFit(starts, limit, window, a, d);
    FitWithoutOverlaps(limit, window, d);
  }

  lemma SharesFit(starts: seq<Time>, limit: nat, window: nat, a: Time, d: nat)
    requires limit >= 1 && FallsBy(starts, d)
    ensures var e := Premature(starts, window);
            Shares(starts, limit, window, a, d) <=
            Fit(2 * window + d, window, d, e) * (limit - 1) + Fit(window, window, d, e)
  {
    hide Premature, Fit, CountIn, FallsBy;
    CountFits(starts, window, d, a - window, 2 * window + d);
    CountFits(starts, window, d, a, window);
    assert a + window + d == a - window + (2 * window + d);
    Times(CountIn(starts, a - window, a + window + d), Fit(2 * window + d, window, d, Premature(starts, window)),
          limit - 1);
  }

  lemma AllowedInOrder(ms: seq<Windows>, cs: seq<Call>, vs: seq<Key>, key: Key, limit: nat, window: nat,
                       a: Time, i: nat, j: nat)
    requires Run(ms, cs, vs) && Uniform(cs, key, limit, window) && InOrder(cs) && i <= j <= |cs|
    requires limit >= 1 && window >= 1
    ensures AllowedIn(ms, cs, vs, key, window, a, i, j) <= (2 + Evictions(ms, cs, vs, key, i, j)) * limit - 1
  {
    hide Run, Uniform, Skewed, InOrder, AllowedIn, Starts, Premature, Shares, LeftIn, FallsBy, Evictions,
         ChargedInOrder;
    var starts := Starts(ms, cs, vs, key, window, i, j);
    InOrderIsUnskewed(cs);
    AllowedPerWindow(ms, cs, vs, key, limit, window, 0, a, i, j);
    StartsFallBySkew(ms, cs, vs, key, limit, window, 0, i, j);
    PrematurePerEviction(ms, cs, vs, key, limit, window, i, j);
    SharesInOrder(starts, limit, window, a, Evictions(ms, cs, vs, key, i, j));
  }

  lemma InOrderIsUnskewed(cs: seq<Call>)
    requires InOrder(cs)
    ensures Skewed(cs, 0)
  {
  }

  lemma SharesInOrder(starts: seq<Time>, limit: nat, window: nat, a: Time, evicted: nat)
    requires limit >= 1 && window >= 1 && FallsBy(starts, 0) && Premature(starts, window) <= evicted
    ensures Shares(starts, limit, window, a, 0) <= (2 + evicted) * limit - 1
  {
    hide Premature, Shares, FallsBy, Fit;
    SharesFit(starts, limit, window, a, 0);
    FitInOrder(limit, window, Premature(starts, window), evicted);
  }

  lemma FitInOrder(limit: nat, window: nat, e: nat, evicted: nat)
    requires limit >= 1 && window >= 1 && e <= evicted
    ensures Fit(2 * window + 0, window, 0, e) * (limit - 1) + Fit(window, window, 0, e) <= (2 + evicted) * limit - 1
  {
    FitUnskewed(window, e);
    hide Fit;
    Times(2 + e, 2 + evicted, limit);
    assert (2 + e) * (limit - 1) == (2 + e) * limit - (2 + e);
  }

  lemma FitUnskewed(window: nat, e: nat)
    requires window >= 1
    ensures Fit(2 * window + 0, window, 0, e) == 2 + e && Fit(window, window, 0, e) == 1 + e
  {
    assert e * 0 == 0 && window / (window + 1) == 0 && (2 * window) / (window + 1) == 1;
  }

  lemma FitWithoutOverlaps(limit: nat, window: nat, d: nat)
    requires limit >= 1
    ensures Fit(2 * window + d, window, d, 0) * (limit - 1) + Fit(window, window, d, 0) == Most(limit, window, d)
  {
    assert window / (window + 1) == 0;
    assert 0 * d == 0;
  }

  /** n windows full but for one attempt each, and one of those attempts. */
  function Most(limit: nat, window: nat, d: nat): int {
    var n := 1 + (2 * window + d) / (window + 1);
    n * (limit - 1) + 1
  }

  // ----- windows opened before the one before was over ------------------------------------------

  ghost function Dropped(ms: seq<Windows>, cs: seq<Call>, vs: seq<Key>, key: Key, i: nat, j: nat): nat
    requires Run(ms, cs, vs) && i <= j <= |cs|
    decreases j
  {
    if i == j then 0
    else Dropped(ms, cs, vs, key, i, j - 1) + One(Drops(ms[j - 1], cs[j - 1], vs[j - 1], key))
  }

  lemma PrematureLast(starts: seq<Time>, x: Time, window: nat)
    ensures Premature(starts + [x], window) ==
            Premature(starts, window) + One(starts != [] && x <= starts[|starts| - 1] + window)
  {
    if starts != [] {
      OverlapsOfPrefix(starts, x, window, |starts| - 1);
    }
  }

  lemma {:induction false} OverlapsOfPrefix(starts: seq<Time>, x: Time, window: nat, l: nat)
    requires l < |starts|
    ensures Overlaps(starts + [x], window, 0, l) == Overlaps(starts, window, 0, l)
  {
    if l > 0 {
      OverlapsOfPrefix(starts, x, window, l - 1);
    }
  }

  /** What is known of the windows of a key: the last one is in the map, or has been dropped,
      which is then still to be charged for. */
  ghost predicate Charged(starts: seq<Time>, m: Windows, key: Key, window: nat, dropped: nat) {
    if key in m then
      starts != [] && starts[|starts| - 1] == m[key].reset - window && Premature(starts, window) <= dropped
    else starts == [] || Premature(starts, window) + 1 <= dropped
  }

  lemma ChargedCovers(starts: seq<Time>, m: Windows, key: Key, window: nat, dropped: nat)
    requires Charged(starts, m, key, window, dropped)
    ensures Premature(starts, window) <= dropped
  {
  }

  lemma StepCharged(starts: seq<Time>, m: Windows, c: Call, v: Key, key: Key, window: nat, dropped: nat)
    requires Charged(starts, m, key, window, dropped) && ZERO < c.now
    requires c.key == key ==> c.window == window
    ensures var after := if c.key == key && Opens(m, c, v) then starts + [c.now] else starts;
            Charged(after, After(m, c, v), key, window, dropped + One(Drops(m, c, v, key)))
  {
    PrematureLast(starts, c.now, window);
    assert Premature([], window) == 0;
    hide Premature;
  }

  /** In any order of readings, a window of the key is opened before the one before was over only
      after that one was dropped to make room. */
  lemma {:induction false} PrematurePerDrop(ms: seq<Windows>, cs: seq<Call>, vs: seq<Key>, key: Key, limit: nat,
                                            window: nat, i: nat, j: nat)
    requires Run(ms, cs, vs) && Uniform(cs, key, limit, window) && i <= j <= |cs|
    ensures var starts := Starts(ms, cs, vs, key, window, i, j);
            && Charged(starts, ms[j], key, window, Dropped(ms, cs, vs, key, i, j))
            && Premature(starts, window) <= Dropped(ms, cs, vs, key, i, j)
    decreases j
  {
    hide *;
    if i < j {
      PrematurePerDrop(ms, cs, vs, key, limit, window, i, j - 1);
      StepOf(ms, cs, vs, j - 1);
      StartsStep(ms, cs, vs, key, window, i, j - 1);
      DroppedStep(ms, cs, vs, key, i, j - 1);
      if cs[j - 1].key == key {
        UniformAt(cs, key, limit, window, j - 1);
      }
      StepCharged(Starts(ms, cs, vs, key, window, i, j - 1), ms[j - 1], cs[j - 1], vs[j - 1], key, window,
                  Dropped(ms, cs, vs, key, i, j - 1));
    } else {
      StartsAtFirst(ms, cs, vs, key, window, i);
      ChargedAtFirst(ms[i], key, window, Dropped(ms, cs, vs, key, i, i));
    }
    ChargedCovers(Starts(ms, cs, vs, key, window, i, j), ms[j], key, window, Dropped(ms, cs, vs, key, i, j));
  }

  lemma DroppedStep(ms: seq<Windows>, cs: seq<Call>, vs: seq<Key>, key: Key, i: nat, j: nat)
    requires Run(ms, cs, vs) && i <= j < |cs|
    ensures |ms| == |cs| + 1 && |vs| == |cs|
    ensures Dropped(ms, cs, vs, key, i, j + 1) ==
            Dropped(ms, cs, vs, key, i, j) + One(Drops(ms[j], cs[j], vs[j], key))
  {
    hide Drops, After;
  }

  lemma ChargedAtFirst(m: Windows, key: Key, window: nat, dropped: nat)
    ensures Charged(if key in m then [m[key].reset - window] else [], m, key, window, dropped)
  {
  }

  /** In lock order a window dropped by a purge was over, so only a random eviction counts. */
  ghost predicate ChargedInOrder(starts: seq<Time>, m: Windows, key: Key, window: nat, evicted: nat, now: Time) {
    || Charged(starts, m, key, window, evicted)
    || (key !in m && starts != [] && starts[|starts| - 1] + window < now && Premature(starts, window) <= evicted)
  }

  lemma StepChargedInOrder(starts: seq<Time>, m: Windows, c: Call, v: Key, key: Key, window: nat, evicted: nat,
                           now: Time)
    requires ChargedInOrder(starts, m, key, window, evicted, now) && ZERO < c.now && now <= c.now
    requires c.key == key ==> c.window == window
    ensures var after := if c.key == key && Opens(m, c, v) then starts + [c.now] else starts;
            ChargedInOrder(after, After(m, c, v), key, window, evicted + One(Evicts(m, c) && v == key), c.now)
  {
    PrematureLast(starts, c.now, window);
    assert Premature([], window) == 0;
    hide Premature;
  }

  /** In lock order, a window of the key is opened before the one before was over at most once per
      random eviction of the key. */
  lemma {:induction false} PrematurePerEviction(ms: seq<Windows>, cs: seq<Call>, vs: seq<Key>, key: Key, limit: nat,
                                                window: nat, i: nat, j: nat)
    requires Run(ms, cs, vs) && Uniform(cs, key, limit, window) && InOrder(cs) && i <= j <= |cs|
    ensures var starts := Starts(ms, cs, vs, key, window, i, j);
            && Premature(starts, window) <= Evictions(ms, cs, vs, key, i, j)
            && ChargedInOrder(starts, ms[j], key, window, Evictions(ms, cs, vs, key, i, j),
                              ReadBefore(cs, j))
    decreases j
  {
    hide *;
    var starts := Starts(ms, cs, vs, key, window, i, j);
    if i < j {
      PrematurePerEviction(ms, cs, vs, key, limit, window, i, j - 1);
      StepOf(ms, cs, vs, j - 1);
      StartsStep(ms, cs, vs, key, window, i, j - 1);
      EvictionsStep(ms, cs, vs, key, i, j - 1);
      if cs[j - 1].key == key {
        UniformAt(cs, key, limit, window, j - 1);
      }
      NextIsLater(ms, cs, vs, j - 1);
      StepChargedInOrder(Starts(ms, cs, vs, key, window, i, j - 1), ms[j - 1], cs[j - 1], vs[j - 1], key, window,
                         Evictions(ms, cs, vs, key, i, j - 1), ReadBefore(cs, j - 1));
    } else {
      StartsAtFirst(ms, cs, vs, key, window, i);
      ChargedAtFirst(ms[i], key, window, Evictions(ms, cs, vs, key, i, i));
      ChargedIsInOrder(starts, ms[i], key, window, Evictions(ms, cs, vs, key, i, i), ReadBefore(cs, i));
    }
    ChargedInOrderCovers(starts, ms[j], key, window, Evictions(ms, cs, vs, key, i, j), ReadBefore(cs, j));
  }

  lemma EvictionsStep(ms: seq<Windows>, cs: seq<Call>, vs: seq<Key>, key: Key, i: nat, j: nat)
    requires Run(ms, cs, vs) && i <= j < |cs|
    ensures |ms| == |cs| + 1 && |vs| == |cs|
    ensures Evictions(ms, cs, vs, key, i, j + 1) ==
            Evictions(ms, cs, vs, key, i, j) + One(Evicts(ms[j], cs[j]) && vs[j] == key)
  {
    hide Evicts, After;
  }

  /** The reading of the call before `j`. */
  function ReadBefore(cs: seq<Call>, j: nat): Time
    requires j <= |cs|
  {
    if j == 0 then ZERO else cs[j - 1].now
  }

  lemma NextIsLater(ms: seq<Windows>, cs: seq<Call>, vs: seq<Key>, k: nat)
    requires Run(ms, cs, vs) && InOrder(cs) && k < |cs|
    ensures ReadBefore(cs, k) <= cs[k].now == ReadBefore(cs, k + 1)
  {
    StepOf(ms, cs, vs, k);
  }

  lemma ChargedIsInOrder(starts: seq<Time>, m: Windows, key: Key, window: nat, evicted: nat, now: Time)
    requires Charged(starts, m, key, window, evicted)
    ensures ChargedInOrder(starts, m, key, window, evicted, now)
  {
  }

  lemma ChargedInOrderCovers(starts: seq<Time>, m: Windows, key: Key, window: nat, evicted: nat, now: Time)
    requires ChargedInOrder(starts, m, key, window, evicted, now)
    ensures Premature(starts, window) <= evicted
  {
    hide Premature, Charged;
    if Charged(starts, m, key, window, evicted) {
      ChargedCovers(starts, m, key, window, evicted);
    }
  }

  // ----- the bound is met --------------------------------------------------------------------------

  /** One call more. */
  lemma RunGrows(ms: seq<Windows>, cs: seq<Call>, vs: seq<Key>, c: Call, v: Key)
    requires Run(ms, cs, vs) && ZERO < c.now && (Evicts(ms[|cs|], c) ==> v in Purge(ms[|cs|], c.now))
    ensures Run(ms + [After(ms[|cs|], c, v)], cs + [c], vs + [v])
  {
    var ms', cs', vs' := ms + [After(ms[|cs|], c, v)], cs + [c], vs + [v];
    assert Step(ms[|cs|], c, v, After(ms[|cs|], c, v));
    hide After, Step;
    forall i | 0 <= i < |cs'|
      ensures Step(ms'[i], cs'[i], vs'[i], ms'[i + 1])
    {
      if i < |cs| {
        assert ms'[i] == ms[i] && cs'[i] == cs[i] && vs'[i] == vs[i] && ms'[i + 1] == ms[i + 1];
      }
    }
  }

  /** What is counted up to `j` does not depend on what comes after. */
  lemma {:induction false} CountsOfPrefix(ms: seq<Windows>, cs: seq<Call>, vs: seq<Key>, ms': seq<Windows>,
                                          cs': seq<Call>, vs': seq<Key>, key: Key, window: nat, a: Time, j: nat)
    requires Run(ms, cs, vs) && Run(ms', cs', vs') && ms <= ms' && cs <= cs' && vs <= vs' && j <= |cs|
    ensures AllowedIn(ms', cs', vs', key, window, a, 0, j) == AllowedIn(ms, cs, vs, key, window, a, 0, j)
    ensures Starts(ms', cs', vs', key, window, 0, j) == Starts(ms, cs, vs, key, window, 0, j)
  {
    if j > 0 {
      CountsOfPrefix(ms, cs, vs, ms', cs', vs', key, window, a, j - 1);
      assert ms'[j - 1] == ms[j - 1] && cs'[j - 1] == cs[j - 1] && vs'[j - 1] == vs[j - 1];
    }
  }

  /** Window `q` of the worst run starts here. */
  function Opening(window: nat, q: nat): Time {
    1 + q * (window + 1)
  }

  /** The reading its other calls carry: the one nearest its start in the interval. */
  function Reading(window: nat, q: nat): Time {
    if q == 0 then window + 1 else if Opening(window, q) < 2 * window + 1 then Opening(window, q) else 2 * window + 1
  }

  /** How much the first `q` windows and `r` calls of the next give. */
  function Gain(limit: nat, window: nat, q: nat, r: nat): int {
    q * (limit - 1) + (r - 1) + One(q >= 1 || window == 0)
  }

  ghost predicate Worst(ms: seq<Windows>, cs: seq<Call>, vs: seq<Key>, limit: nat, window: nat, d: nat, q: nat,
                        r: nat) {
    && Run(ms, cs, vs) && NoEviction(ms, cs) && WorstCalls(cs, limit, window, d, Top(window, q))
    && ms[|cs|] == map["k" := Window(r, Opening(window, q) + window)]
    && var starts := Starts(ms, cs, vs, "k", window, 0, |cs|);
       && starts != [] && starts[|starts| - 1] == Opening(window, q) && Premature(starts, window) == 0
       && AllowedIn(ms, cs, vs, "k", window, window + 1, 0, |cs|) == Gain(limit, window, q, r)
  }

  ghost predicate WorstCalls(cs: seq<Call>, limit: nat, window: nat, d: nat, top: Time) {
    && Uniform(cs, "k", limit, window) && Skewed(cs, d)
    && forall p :: 0 <= p < |cs| ==> cs[p].now <= top
  }

  function Top(window: nat, q: nat): Time {
    if q == 0 then window + 1 else Opening(window, q)
  }

  /** What one more call of the worst run does. */
  lemma Adds(ms: seq<Windows>, cs: seq<Call>, vs: seq<Key>, c: Call, window: nat, a: Time)
    returns (ms': seq<Windows>, cs': seq<Call>, vs': seq<Key>)
    requires Run(ms, cs, vs) && NoEviction(ms, cs) && ZERO < c.now && c.key == "k" && !Evicts(ms[|cs|], c)
    ensures Run(ms', cs', vs') && NoEviction(ms', cs') && cs' == cs + [c] && ms'[|cs'|] == After(ms[|cs|], c, "")
    ensures Starts(ms', cs', vs', "k", window, 0, |cs'|) ==
            Starts(ms, cs, vs, "k", window, 0, |cs|) + (if Opens(ms[|cs|], c, "") then [c.now] else [])
    ensures AllowedIn(ms', cs', vs', "k", window, a, 0, |cs'|) ==
            AllowedIn(ms, cs, vs, "k", window, a, 0, |cs|) + One(Verdict(ms[|cs|], c, "") && a <= c.now <= a + window)
  {
    hide Run, NoEviction, After, Opens, Verdict, Starts, AllowedIn;
    Lengths(ms, cs, vs);
    var m := ms[|cs|];
    ms', cs', vs' := ms + [After(m, c, "")], cs + [c], vs + [""];
    RunGrows(ms, cs, vs, c, "");
    NoEvictionGrows(ms, cs, After(m, c, ""), c);
    CountsOfPrefix(ms, cs, vs, ms', cs', vs', "k", window, a, |cs|);
    StartsStep(ms', cs', vs', "k", window, 0, |cs|);
    AllowedInStep(ms', cs', vs', "k", window, a, 0, |cs|);
    assert ms'[|cs|] == m && cs'[|cs|] == c && vs'[|cs|] == "";
    var starts := Starts(ms, cs, vs, "k", window, 0, |cs|);
    assert starts + [] == starts;
  }

  lemma NoEvictionGrows(ms: seq<Windows>, cs: seq<Call>, m: Windows, c: Call)
    requires |ms| == |cs| + 1 && NoEviction(ms, cs) && !Evicts(ms[|cs|], c)
    ensures NoEviction(ms + [m], cs + [c])
  {
    hide Evicts;
    forall i | 0 <= i < |cs| + 1 ensures !Evicts((ms + [m])[i], (cs + [c])[i]) {
      if i < |cs| {
        assert (ms + [m])[i] == ms[i] && (cs + [c])[i] == cs[i];
      }
    }
  }

  function WorstCall(limit: nat, window: nat, now: Time): Call {
    Call("k", limit, window, now)
  }

  lemma Spaced(window: nat, q: nat)
    ensures Opening(window, q + 1) == Opening(window, q) + window + 1 && Opening(window, q) >= 1
    ensures q >= 1 ==> Opening(window, q) >= window + 2
    ensures q >= 2 ==> Opening(window, q) >= 2 * window + 3
  {
    assert (q + 1) * (window + 1) == q * (window + 1) + (window + 1);
    if q >= 1 {
      Times(1, q, window + 1);
    }
    if q >= 2 {
      Times(2, q, window + 1);
    }
  }

  lemma CallsGrow(cs: seq<Call>, c: Call, limit: nat, window: nat, d: nat, top: Time, top': Time)
    requires WorstCalls(cs, limit, window, d, top) && c == WorstCall(limit, window, c.now)
    requires top <= c.now + d && top <= top' && c.now <= top'
    ensures WorstCalls(cs + [c], limit, window, d, top')
  {
  }

  lemma WorstFirst(limit: nat, window: nat, d: nat) returns (ms: seq<Windows>, cs: seq<Call>, vs: seq<Key>)
    requires limit >= 1
    ensures Worst(ms, cs, vs, limit, window, d, 0, 1)
  {
    hide Run, NoEviction, After, Opens, Verdict, Starts, AllowedIn, Premature, WorstCalls, Opening, Top, Gain, Worst;
    var c := WorstCall(limit, window, 1);
    var none: Windows := map[];
    EmptyRun(none, window, window + 1);
    FirstCall(none, c);
    ms, cs, vs := Adds([none], [], [], c, window, window + 1);
    FirstFacts(limit, window, d, c);
    PrematureLast([], 1, window);
    assert cs == [c] && [] + [1] == [1];
    IsWorst(ms, cs, vs, limit, window, d, 0, 1, [1]);
  }

  lemma EmptyRun(none: Windows, window: nat, a: Time)
    requires none == map[]
    ensures Run([none], [], []) && NoEviction([none], [])
    ensures Starts([none], [], [], "k", window, 0, 0) == [] && AllowedIn([none], [], [], "k", window, a, 0, 0) == 0
  {
  }

  lemma FirstCall(none: Windows, c: Call)
    requires none == map[] && c.key == "k" && c.limit >= 1 && ZERO < c.now
    ensures Opens(none, c, "") && Verdict(none, c, "") && !Evicts(none, c)
    ensures After(none, c, "") == map["k" := Window(1, c.now + c.window)]
  {
  }

  lemma FirstFacts(limit: nat, window: nat, d: nat, c: Call)
    requires limit >= 1 && c == WorstCall(limit, window, 1)
    ensures WorstCalls([c], limit, window, d, Top(window, 0)) && Opening(window, 0) == 1
    ensures Gain(limit, window, 0, 1) == One(window + 1 <= 1 <= window + 1 + window)
    ensures Premature([], window) == 0
  {
  }

  lemma Lengths(ms: seq<Windows>, cs: seq<Call>, vs: seq<Key>)
    requires Run(ms, cs, vs)
    ensures |ms| == |cs| + 1
  {
  }

  lemma IsWorst(ms: seq<Windows>, cs: seq<Call>, vs: seq<Key>, limit: nat, window: nat, d: nat, q: nat, r: nat,
                starts: seq<Time>)
    requires Run(ms, cs, vs) && NoEviction(ms, cs) && WorstCalls(cs, limit, window, d, Top(window, q))
    requires ms[|cs|] == map["k" := Window(r, Opening(window, q) + window)]
    requires Starts(ms, cs, vs, "k", window, 0, |cs|) == starts && starts != []
    requires starts[|starts| - 1] == Opening(window, q) && Premature(starts, window) == 0
    requires AllowedIn(ms, cs, vs, "k", window, window + 1, 0, |cs|) == Gain(limit, window, q, r)
    ensures Worst(ms, cs, vs, limit, window, d, q, r)
  {
    hide Run, NoEviction, WorstCalls, Top, Opening, Starts, Premature, AllowedIn, Gain;
  }

  lemma WorstOpens(ms: seq<Windows>, cs: seq<Call>, vs: seq<Key>, limit: nat, window: nat, d: nat, q: nat)
    returns (ms': seq<Windows>, cs': seq<Call>, vs': seq<Key>)
    requires limit >= 1 && Worst(ms, cs, vs, limit, window, d, q, limit)
    ensures Worst(ms', cs', vs', limit, window, d, q + 1, 1)
  {
    hide After, Opens, Verdict, Opening, Run, NoEviction, Starts, AllowedIn, Premature, Gain, WorstCalls;
    Lengths(ms, cs, vs);
    var m, c := ms[|cs|], WorstCall(limit, window, Opening(window, q + 1));
    var starts := Starts(ms, cs, vs, "k", window, 0, |cs|);
    Spaced(window, q);
    Spaced(window, q + 1);
    OpensWindow(m, c, limit, window, Opening(window, q));
    CallsGrow(cs, c, limit, window, d, Top(window, q), Top(window, q + 1));
    PrematureLast(starts, c.now, window);
    GainOpens(limit, window, q);
    assert AllowedIn(ms, cs, vs, "k", window, window + 1, 0, |cs|) == Gain(limit, window, q, limit);
    hide Worst;
    ms', cs', vs' := Adds(ms, cs, vs, c, window, window + 1);
    IsWorst(ms', cs', vs', limit, window, d, q + 1, 1, starts + [c.now]);
  }

  lemma OpensWindow(m: Windows, c: Call, limit: nat, window: nat, start: Time)
    requires c.key == "k" && c.limit == limit && c.window == window && limit >= 1 && ZERO < c.now
    requires m == map["k" := Window(limit, start + window)] && c.now > start + window
    ensures Opens(m, c, "") && Verdict(m, c, "") && !Evicts(m, c)
    ensures After(m, c, "") == map["k" := Window(1, c.now + window)]
  {
    assert !NeedsRoom(m, c);
  }

  lemma GainOpens(limit: nat, window: nat, q: nat)
    requires limit >= 1
    ensures Gain(limit, window, q + 1, 1) ==
            Gain(limit, window, q, limit) + One(window + 1 <= Opening(window, q + 1) <= window + 1 + window)
  {
    Spaced(window, q + 1);
    assert (q + 1) * (limit - 1) == q * (limit - 1) + (limit - 1);
    if q == 0 {
      assert Opening(window, 1) == window + 2;
    }
  }

  lemma WorstServes(ms: seq<Windows>, cs: seq<Call>, vs: seq<Key>, limit: nat, window: nat, d: nat, q: nat, r: nat)
    returns (ms': seq<Windows>, cs': seq<Call>, vs': seq<Key>)
    requires 1 <= r < limit && Worst(ms, cs, vs, limit, window, d, q, r) && Opening(window, q) <= 2 * window + 1 + d
    ensures Worst(ms', cs', vs', limit, window, d, q, r + 1)
  {
    hide After, Opens, Verdict, Opening, Reading, Run, NoEviction, Starts, AllowedIn, Premature, Gain, WorstCalls;
    Lengths(ms, cs, vs);
    var m, c := ms[|cs|], WorstCall(limit, window, Reading(window, q));
    var starts := Starts(ms, cs, vs, "k", window, 0, |cs|);
    Spaced(window, q);
    ReadingFits(window, d, q);
    ServesCall(m, c, limit, window, Opening(window, q), r);
    CallsGrow(cs, c, limit, window, d, Top(window, q), Top(window, q));
    GainServes(limit, window, q, r);
    assert AllowedIn(ms, cs, vs, "k", window, window + 1, 0, |cs|) == Gain(limit, window, q, r);
    hide Worst;
    ms', cs', vs' := Adds(ms, cs, vs, c, window, window + 1);
    assert starts + [] == starts;
    IsWorst(ms', cs', vs', limit, window, d, q, r + 1, starts);
  }

  lemma GainServes(limit: nat, window: nat, q: nat, r: nat)
    requires limit >= 1
    ensures Gain(limit, window, q, r + 1) == Gain(limit, window, q, r) + 1
  {
  }

  lemma ReadingFits(window: nat, d: nat, q: nat)
    requires Opening(window, q) <= 2 * window + 1 + d
    ensures window + 1 <= Reading(window, q) <= 2 * window + 1 && Reading(window, q) <= Opening(window, q) + window
    ensures Reading(window, q) <= Top(window, q) <= Reading(window, q) + d
  {
    Spaced(window, q);
  }

  lemma ServesCall(m: Windows, c: Call, limit: nat, window: nat, start: Time, r: nat)
    requires c.key == "k" && c.limit == limit && 1 <= r < limit && m == map["k" := Window(r, start + window)]
    requires c.now <= start + window
    ensures !Opens(m, c, "") && Verdict(m, c, "") && !Evicts(m, c)
    ensures After(m, c, "") == map["k" := Window(r + 1, start + window)]
  {
    assert !NeedsRoom(m, c);
  }

  lemma {:induction false} WorstRun(limit: nat, window: nat, d: nat, q: nat, r: nat)
    returns (ms: seq<Windows>, cs: seq<Call>, vs: seq<Key>)
    requires 1 <= r <= limit && Opening(window, q) <= 2 * window + 1 + d
    ensures Worst(ms, cs, vs, limit, window, d, q, r)
    decreases q, r
  {
    hide Worst;
    if r > 1 {
      ms, cs, vs := WorstRun(limit, window, d, q, r - 1);
      ms, cs, vs := WorstServes(ms, cs, vs, limit, window, d, q, r - 1);
    } else if q > 0 {
      Spaced(window, q - 1);
      ms, cs, vs := WorstRun(limit, window, d, q - 1, limit);
      ms, cs, vs := WorstOpens(ms, cs, vs, limit, window, d, q - 1);
    } else {
      ms, cs, vs := WorstFirst(limit, window, d);
    }
  }

  /** No smaller bound would do: for every limit, window and skew there is a run without
      evictions, and without windows opened before the one before was over, in which a closed
      interval of one window length sees as many attempts as the bound allows. */
  lemma SkewedBoundIsMet(limit: nat, window: nat, d: nat) returns (ms: seq<Windows>, cs: seq<Call>, vs: seq<Key>)
    requires limit >= 1
    ensures Run(ms, cs, vs) && NoEviction(ms, cs) && Uniform(cs, "k", limit, window) && Skewed(cs, d)
    ensures Premature(Starts(ms, cs, vs, "k", window, 0, |cs|), window) == 0
    ensures AllowedIn(ms, cs, vs, "k", window, window + 1, 0, |cs|) == Most(limit, window, d)
  {
    var q := (2 * window + d) / (window + 1);
    LastOpening(window, d);
    ms, cs, vs := WorstRun(limit, window, d, q, limit);
    GainIsMost(limit, window, d);
  }

  lemma LastOpening(window: nat, d: nat)
    ensures Opening(window, (2 * window + d) / (window + 1)) <= 2 * window + 1 + d
  {
  }

  lemma GainIsMost(limit: nat, window: nat, d: nat)
    requires limit >= 1
    ensures Gain(limit, window, (2 * window + d) / (window + 1), limit) == Most(limit, window, d)
  {
    var q := (2 * window + d) / (window + 1);
    if window >= 1 {
      Quotient(1, 2 * window + d, window);
    }
    assert (1 + q) * (limit - 1) == q * (limit - 1) + (limit - 1);
  }

  // ----- which skew does no harm -------------------------------------------------------------------

  /** Every run of skew `d` whose windows do not overlap keeps to `most` attempts of a key in a
      closed interval of one window length. */
  ghost predicate Keeps(limit: nat, window: nat, d: nat, most: int) {
    forall ms, cs, vs, key, a, i, j ::
      Run(ms, cs, vs) && Uniform(cs, key, limit, window) && Skewed(cs, d) && 0 <= i <= j <= |cs| &&
      Premature(Starts(ms, cs, vs, key, window, i, j), window) == 0 ==>
        AllowedIn(ms, cs, vs, key, window, a, i, j) <= most
  }

  /** The most a key gets is exactly this. */
  lemma MostIsExact(limit: nat, window: nat, d: nat, most: int)
    requires limit >= 1
    ensures Keeps(limit, window, d, most) <==> Most(limit, window, d) <= most
  {
    hide Most, Run, Uniform, Skewed, Starts, AllowedIn, Premature, NoEviction;
    if Most(limit, window, d) <= most {
      forall ms, cs, vs, key, a, i, j |
        Run(ms, cs, vs) && Uniform(cs, key, limit, window) && Skewed(cs, d) && 0 <= i <= j <= |cs| &&
        Premature(Starts(ms, cs, vs, key, window, i, j), window) == 0
        ensures AllowedIn(ms, cs, vs, key, window, a, i, j) <= most
      {
        AllowedPerSkewedInterval(ms, cs, vs, key, limit, window, d, a, i, j);
      }
    }
    var ms, cs, vs := SkewedBoundIsMet(limit, window, d);
    assert Keeps(limit, window, d, most) ==>
             AllowedIn(ms, cs, vs, "k", window, window + 1, 0, |cs|) <= most;
  }

  /** Readings out of order by one tick do no harm: the bound of lock order, 2 * limit - 1, holds
      for every run of skew `d` whose windows do not overlap if and only if `d` is at most one.
      From two ticks on, three windows can serve one interval. */
  lemma OrderBoundIffOneTick(limit: nat, window: nat, d: nat)
    requires limit >= 2
    ensures Keeps(limit, window, d, 2 * limit - 1) <==> d <= 1
  {
    MostIsExact(limit, window, d, 2 * limit - 1);
    MostOfTwo(limit, window, d);
  }

  lemma MostOfTwo(limit: nat, window: nat, d: nat)
    requires limit >= 2
    ensures Most(limit, window, d) <= 2 * limit - 1 <==> d <= 1
  {
    var n := 1 + (2 * window + d) / (window + 1);
    if d <= 1 {
      assert (2 * window + d) / (window + 1) <= 1;
    } else {
      Quotient(2, 2 * window + d, window);
      Times(3, n, limit - 1);
    }
  }
}
