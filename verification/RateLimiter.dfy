/** The attempt limiter: a bounded map of lazily opened windows.  At its cap it drops the
    expired windows, and if that frees nothing, one live window picked at random. */
module RateLimiter {

  type Key = string
  type Time = int

  /** The zero instant a missing entry carries; every clock reading is after it. */
  const ZERO: Time := 0
  const CAP: nat := 10000

  datatype Window = Window(count: nat, reset: Time)
  type Windows = map<Key, Window>

  /** One call of allowAttempt, with the clock reading it took. */
  datatype Call = Call(key: Key, limit: int, window: nat, now: Time)

  function Bump(entry: Window, now: Time, window: nat): Window {
    var e := if now > entry.reset then Window(0, now + window) else entry;
    e.(count := e.count + 1)
  }

  function Entry(m: Windows, key: Key): Window {
    if key in m then m[key] else Window(0, ZERO)
  }

  function Purge(m: Windows, now: Time): Windows {
    map k | k in m && now <= m[k].reset :: m[k]
  }

  predicate NeedsRoom(m: Windows, c: Call) {
    c.key !in m && |m| >= CAP
  }

  /** The random eviction fires. */
  predicate Evicts(m: Windows, c: Call) {
    NeedsRoom(m, c) && |Purge(m, c.now)| >= CAP
  }

  /** The map after makeRoom, when the random pick is `victim`. */
  function Room(m: Windows, c: Call, victim: Key): Windows {
    if !NeedsRoom(m, c) then m
    else if Evicts(m, c) then Purge(m, c.now) - {victim}
    else Purge(m, c.now)
  }

  function Bumped(m: Windows, c: Call, victim: Key): Window {
    Bump(Entry(Room(m, c, victim), c.key), c.now, c.window)
  }

  function After(m: Windows, c: Call, victim: Key): Windows {
    Room(m, c, victim)[c.key := Bumped(m, c, victim)]
  }

  predicate Verdict(m: Windows, c: Call, victim: Key) {
    Bumped(m, c, victim).count <= c.limit
  }

  // ----- the limiter as the server runs it -----------------------------------------------------

  class Limiter {
    var attempts: Windows

    constructor ()
      ensures attempts == map[]
    {
      attempts := map[];
    }

    /** The two loops of makeRoom over the map, in whatever order it is walked. */
    method MakeRoom(now: Time) returns (ghost victim: Key)
      requires |attempts| >= CAP
      modifies this
      ensures var p := Purge(old(attempts), now);
              if |p| >= CAP then victim in p && attempts == p - {victim} else attempts == p
    {
      var todo := attempts.Keys;
      while todo != {}
        invariant todo <= attempts.Keys <= old(attempts).Keys
        invariant forall k :: k in attempts ==> attempts[k] == old(attempts)[k]
        invariant forall k :: k in old(attempts) && k !in todo ==> (k in attempts <==> now <= old(attempts)[k].reset)
        decreases |todo|
      {
        var candidate :| candidate in todo;
        if now > attempts[candidate].reset {
          attempts := attempts - {candidate};
        }
        todo := todo - {candidate};
      }
      assert attempts == Purge(old(attempts), now);
      victim := "";
      if |attempts| >= CAP {
        assert attempts.Keys != {};
        var candidate :| candidate in attempts;
        attempts := attempts - {candidate};
        victim := candidate;
      }
    }

    method AllowAttempt(key: Key, limit: int, window: nat, now: Time) returns (ok: bool, ghost victim: Key)
      modifies this
      ensures var c := Call(key, limit, window, now);
              && attempts == After(old(attempts), c, victim)
              && ok == Verdict(old(attempts), c, victim)
              && (Evicts(old(attempts), c) ==> victim in Purge(old(attempts), now))
    {
      victim := "";
      if key !in attempts && |attempts| >= CAP {
        victim := MakeRoom(now);
      }
      ghost var c := Call(key, limit, window, now);
      assert attempts == Room(old(attempts), c, victim);
      hide Room, Evicts;
      var entry := if key in attempts then attempts[key] else Window(0, ZERO);
      if now > entry.reset {
        entry := Window(0, now + window);
      }
      entry := entry.(count := entry.count + 1);
      attempts := attempts[key := entry];
      ok := entry.count <= limit;
    }
  }

  // ----- runs ----------------------------------------------------------------------------------

  ghost predicate Step(m: Windows, c: Call, v: Key, m': Windows) {
    ZERO < c.now && (Evicts(m, c) ==> v in Purge(m, c.now)) && m' == After(m, c, v)
  }

  ghost predicate Run(ms: seq<Windows>, cs: seq<Call>, vs: seq<Key>) {
    && |ms| == |cs| + 1 && |vs| == |cs|
    && ms[0] == map[]
    && (forall i {:trigger cs[i]} :: 0 <= i < |cs| ==> Step(ms[i], cs[i], vs[i], ms[i + 1]))
  }

  lemma StepOf(ms: seq<Windows>, cs: seq<Call>, vs: seq<Key>, k: nat)
    requires Run(ms, cs, vs) && k < |cs|
    ensures |ms| == |cs| + 1 && |vs| == |cs| && ms[k + 1] == After(ms[k], cs[k], vs[k]) && ZERO < cs[k].now
    ensures Evicts(ms[k], cs[k]) ==> vs[k] in Purge(ms[k], cs[k].now)
  {
    hide After, Evicts, Purge;
  }

  /** The clock readings come in the order the lock was taken. */
  ghost predicate InOrder(cs: seq<Call>) {
    forall i, j :: 0 <= i <= j < |cs| ==> cs[i].now <= cs[j].now
  }

  lemma Dropping(m: Windows, k: Key)
    requires k in m
    ensures |m - {k}| == |m| - 1
  {
    assert (m - {k}).Keys == m.Keys - {k};
    assert |(m - {k}).Keys| == |m.Keys| - 1;
  }

  lemma Purging(m: Windows, now: Time)
    ensures |Purge(m, now)| <= |m|
  {
    Subset(Purge(m, now).Keys, m.Keys);
  }

  lemma {:induction false} Subset(a: set<Key>, b: set<Key>)
    requires a <= b
    ensures |a| <= |b|
  {
    if k :| k in a {
      Subset(a - {k}, b - {k});
    }
  }

  /** A new key always finds room. */
  lemma RoomSize(m: Windows, c: Call, victim: Key)
    requires |m| <= CAP && (Evicts(m, c) ==> victim in Purge(m, c.now))
    ensures if c.key in m then Room(m, c, victim) == m else |Room(m, c, victim)| < CAP
  {
    Purging(m, c.now);
    if Evicts(m, c) {
      Dropping(Purge(m, c.now), victim);
    }
    hide Purge;
  }

  lemma Adding(m: Windows, k: Key, w: Window)
    ensures |m[k := w]| == if k in m then |m| else |m| + 1
  {
    assert m[k := w].Keys == m.Keys + {k};
    assert |m[k := w].Keys| == |m[k := w]| && |m.Keys| == |m|;
  }

  lemma StepKeepsCap(m: Windows, c: Call, victim: Key)
    requires |m| <= CAP && (Evicts(m, c) ==> victim in Purge(m, c.now))
    ensures |After(m, c, victim)| <= CAP
  {
    hide Room, Evicts, Purge, Bumped;
    RoomSize(m, c, victim);
    Adding(Room(m, c, victim), c.key, Bumped(m, c, victim));
  }

  lemma FreshKeyAdmitted(m: Windows, c: Call, victim: Key)
    requires c.key !in m && c.limit >= 1 && ZERO < c.now
    ensures Verdict(m, c, victim)
  {
  }

  /** The map never exceeds its cap, and nobody is locked out by that: at the cap an unknown key
      is not refused, something else goes. */
  lemma {:induction false} CapHolds(ms: seq<Windows>, cs: seq<Call>, vs: seq<Key>, k: nat)
    requires Run(ms, cs, vs) && k < |ms|
    ensures |ms[k]| <= CAP
    ensures k < |cs| && cs[k].key !in ms[k] && cs[k].limit >= 1 ==> Verdict(ms[k], cs[k], vs[k])
  {
    hide Verdict, After, Evicts, Purge;
    if k > 0 {
      CapHolds(ms, cs, vs, k - 1);
      assert Evicts(ms[k - 1], cs[k - 1]) ==> vs[k - 1] in Purge(ms[k - 1], cs[k - 1].now);
      StepKeepsCap(ms[k - 1], cs[k - 1], vs[k - 1]);
      assert ms[k] == After(ms[k - 1], cs[k - 1], vs[k - 1]);
    }
    if k < |cs| && cs[k].key !in ms[k] && cs[k].limit >= 1 {
      FreshKeyAdmitted(ms[k], cs[k], vs[k]);
    }
  }

  ghost predicate NoEviction(ms: seq<Windows>, cs: seq<Call>)
    requires |ms| == |cs| + 1
  {
    forall i :: 0 <= i < |cs| ==> !Evicts(ms[i], cs[i])
  }

  /** The call drops the window of `key` to make room. */
  predicate Drops(m: Windows, c: Call, v: Key, key: Key) {
    key in m && key !in Room(m, c, v)
  }

  // ----- the numeric bound -----------------------------------------------------------------------------

  function One(b: bool): nat { if b then 1 else 0 }

  /** Attempts on `key` allowed by the calls from `i` up to `j`. */
  ghost function Allowed(ms: seq<Windows>, cs: seq<Call>, vs: seq<Key>, key: Key, i: nat, j: nat): nat
    requires Run(ms, cs, vs) && i <= j <= |cs|
    decreases j
  {
    if i == j then 0
    else Allowed(ms, cs, vs, key, i, j - 1) + One(cs[j - 1].key == key && Verdict(ms[j - 1], cs[j - 1], vs[j - 1]))
  }

  /** The call opens a new window for its key. */
  predicate Opens(m: Windows, c: Call, victim: Key) {
    c.now > Entry(Room(m, c, victim), c.key).reset
  }

  ghost function Openings(ms: seq<Windows>, cs: seq<Call>, vs: seq<Key>, key: Key, i: nat, j: nat): nat
    requires Run(ms, cs, vs) && i <= j <= |cs|
    decreases j
  {
    if i == j then 0
    else Openings(ms, cs, vs, key, i, j - 1) + One(cs[j - 1].key == key && Opens(ms[j - 1], cs[j - 1], vs[j - 1]))
  }

  /** Random evictions of `key` by the calls from `i` up to `j`. */
  ghost function Evictions(ms: seq<Windows>, cs: seq<Call>, vs: seq<Key>, key: Key, i: nat, j: nat): nat
    requires Run(ms, cs, vs) && i <= j <= |cs|
    decreases j
  {
    if i == j then 0
    else Evictions(ms, cs, vs, key, i, j - 1) + One(Evicts(ms[j - 1], cs[j - 1]) && vs[j - 1] == key)
  }

  /** Every call on `key` uses one limit and one window, as every call site of the server does. */
  ghost predicate Uniform(cs: seq<Call>, key: Key, limit: nat, window: nat) {
    forall i :: 0 <= i < |cs| && cs[i].key == key ==> cs[i].limit == limit && cs[i].window == window
  }

  /** What the current window of the key can still allow. */
  function Left(m: Windows, key: Key, limit: nat): nat {
    if key in m && m[key].count <= limit then limit - m[key].count else 0
  }

  lemma KeepsItsEntry(m: Windows, c: Call, victim: Key, key: Key, limit: nat)
    requires c.key != key
    ensures Left(After(m, c, victim), key, limit) <= Left(m, key, limit)
  {
  }

  lemma OpeningGivesOneWindow(m: Windows, c: Call, victim: Key, limit: nat)
    requires c.limit == limit && ZERO < c.now
    ensures One(Verdict(m, c, victim)) + Left(After(m, c, victim), c.key, limit) <=
            Left(m, c.key, limit) + if Opens(m, c, victim) then limit else 0
  {
  }

  /** What one call allows comes out of the window of the key or of the one it opens. */
  lemma CallTakes(m: Windows, c: Call, victim: Key, key: Key, limit: nat)
    requires ZERO < c.now && (c.key == key ==> c.limit == limit)
    ensures One(c.key == key && Verdict(m, c, victim)) + Left(After(m, c, victim), key, limit) <=
            Left(m, key, limit) + if c.key == key && Opens(m, c, victim) then limit else 0
  {
    hide Verdict, Opens, Left, After;
    if c.key == key {
      OpeningGivesOneWindow(m, c, victim, limit);
    } else {
      KeepsItsEntry(m, c, victim, key, limit);
    }
  }

  /** What `n` windows can allow. */
  function Worth(n: nat, limit: nat): nat {
    n * limit
  }

  lemma WorthGrows(n: nat, b: bool, limit: nat)
    ensures Worth(n + One(b), limit) == Worth(n, limit) + if b then limit else 0
  {
  }

  /** In any order of clock readings: what a stretch of calls allows comes out of the window
      open at its start and of the windows opened in it. */
  lemma {:induction false} AllowedPerOpening(ms: seq<Windows>, cs: seq<Call>, vs: seq<Key>, key: Key,
                                             limit: nat, window: nat, i: nat, j: nat)
    requires Run(ms, cs, vs) && Uniform(cs, key, limit, window) && i <= j <= |cs|
    ensures Allowed(ms, cs, vs, key, i, j) + Left(ms[j], key, limit) <=
            Left(ms[i], key, limit) + Worth(Openings(ms, cs, vs, key, i, j), limit)
    decreases j
  {
    hide After, Verdict, Opens, Left, Worth, Evicts, Purge;
    if i < j {
      AllowedPerOpening(ms, cs, vs, key, limit, window, i, j - 1);
      var m, c, v := ms[j - 1], cs[j - 1], vs[j - 1];
      StepOf(ms, cs, vs, j - 1);
      CallTakes(m, c, v, key, limit);
      WorthGrows(Openings(ms, cs, vs, key, i, j - 1), c.key == key && Opens(m, c, v), limit);
    } else {
      WorthNothing(limit);
    }
  }

  lemma WorthNothing(limit: nat)
    ensures Worth(0, limit) == 0
  {
  }

  /** Every window in the map has been used. */
  lemma {:induction false} WindowsAreUsed(ms: seq<Windows>, cs: seq<Call>, vs: seq<Key>, k: nat)
    requires Run(ms, cs, vs) && k < |ms|
    ensures forall key :: key in ms[k] ==> ms[k][key].count >= 1
  {
    if k > 0 {
      WindowsAreUsed(ms, cs, vs, k - 1);
      assert ms[k] == After(ms[k - 1], cs[k - 1], vs[k - 1]);
    }
  }
}
