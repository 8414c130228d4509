/** The sliding-window limiter: a sorted set of admissions, against the full history. */
module SlidingWindow {

  /** An admission, named as in the sorted set: "time|count". Times are ticks that this
      string tells apart. */
  datatype Admission = Admission(time: int, count: int)

  /** Everything ever admitted, oldest first. */
  type History = seq<Admission>

  predicate Sorted(h: History) {
    forall i, j | 0 <= i < j < |h| :: h[i].time <= h[j].time
  }

  /** Number of admissions at or before `t`. */
  function UpTo(h: History, t: int): (k: nat)
    ensures k <= |h|
  {
    if h == [] then 0
    else UpTo(h[..|h| - 1], t) + if h[|h| - 1].time <= t then 1 else 0
  }

  /** Number of admissions in (t - window, t]. */
  function InWindow(h: History, window: int, t: int): int {
    UpTo(h, t) - UpTo(h, t - window)
  }

  /** That is the number of admissions whose time lies in that window. */
  lemma {:induction false} InWindowCounts(h: History, window: int, t: int)
    requires window >= 1
    ensures InWindow(h, window, t) == |set i | 0 <= i < |h| && t - window < h[i].time <= t|
  {
    if h != [] {
      var n := |h| - 1;
      InWindowCounts(h[..n], window, t);
      var before, all := set i | 0 <= i < n && t - window < h[..n][i].time <= t,
                         set i | 0 <= i < |h| && t - window < h[i].time <= t;
      assert all == before + if t - window < h[n].time <= t then {n} else {};
    }
  }

  /** No window of this length holds more than `limit` admissions. */
  ghost predicate Bounded(h: History, window: int, limit: int) {
    forall t :: InWindow(h, window, t) <= limit
  }

  /** The count in the i-th member is what the window held before it. */
  ghost predicate Ranked(h: History, window: int) {
    forall i | 0 <= i < |h| :: h[i].count == i - UpTo(h, h[i].time - window)
  }

  predicate Distinct(h: History) {
    forall i, j | 0 <= i < j < |h| :: h[i] != h[j]
  }

  // ---------- Counting ----------

  lemma {:induction false} UpToSplits(h: History, t: int)
    requires Sorted(h)
    ensures forall i | 0 <= i < |h| :: h[i].time <= t <==> i < UpTo(h, t)
  {
    if h != [] {
      var n := |h| - 1;
      UpToSplits(h[..n], t);
      var k := UpTo(h[..n], t);
      if n > 0 {
        assert h[..n][n - 1].time <= h[n].time;
      }
      forall i | 0 <= i < n ensures h[i].time <= t <==> i < k {
        assert h[..n][i] == h[i];
      }
    }
  }

  lemma UpToAppend(h: History, a: Admission, t: int)
    ensures UpTo(h + [a], t) == UpTo(h, t) + if a.time <= t then 1 else 0
  {
    assert (h + [a])[..|h|] == h;
  }

  lemma {:induction false} UpToMonotone(h: History, s: int, t: int)
    requires s <= t
    ensures UpTo(h, s) <= UpTo(h, t)
  {
    if h != [] {
      UpToMonotone(h[..|h| - 1], s, t);
    }
  }

  lemma {:induction false} UpToAll(h: History, t: int)
    requires forall i | 0 <= i < |h| :: h[i].time <= t
    ensures UpTo(h, t) == |h|
  {
    if h != [] {
      UpToAll(h[..|h| - 1], t);
    }
  }

  // ---------- What one admission keeps ----------

  /** Admitting under `limit` keeps every window bounded, not only the current one. */
  lemma AdmissionKeepsBound(h: History, window: int, limit: int, a: Admission)
    requires window >= 1 && forall i | 0 <= i < |h| :: h[i].time <= a.time
    requires Bounded(h, window, limit) && InWindow(h, window, a.time) < limit
    ensures Bounded(h + [a], window, limit)
  {
    forall t ensures InWindow(h + [a], window, t) <= limit {
      UpToAppend(h, a, t);
      UpToAppend(h, a, t - window);
      assert InWindow(h, window, t) <= limit;
      if a.time <= t {
        UpToAll(h, t);
        UpToAll(h, a.time);
        UpToMonotone(h, a.time - window, t - window);
      }
    }
  }

  /** The new member collides with no earlier one, so ZADD always adds. */
  lemma NewMember(h: History, window: int, a: Admission)
    requires Sorted(h) && Ranked(h, window) && Distinct(h) && window >= 1
    requires forall i | 0 <= i < |h| :: h[i].time <= a.time
    requires a.count == |h| - UpTo(h, a.time - window)
    ensures a !in h && Distinct(h + [a]) && Ranked(h + [a], window)
  {
    forall i | 0 <= i < |h| ensures h[i] != a {
      assert h[i].count == i - UpTo(h, h[i].time - window);
    }
    forall i | 0 <= i < |h + [a]| ensures (h + [a])[i].count == i - UpTo(h + [a], (h + [a])[i].time - window) {
      UpToAppend(h, a, (h + [a])[i].time - window);
      if i < |h| {
        assert h[i].count == i - UpTo(h, h[i].time - window);
      }
    }
  }

  /** The specification: a history is legal when every call in it was admitted with fewer
      than `limit` earlier admissions in its window. */
  ghost predicate Legal(h: History, window: int, limit: int) {
    h == [] ||
    var n := |h| - 1;
    && Legal(h[..n], window, limit)
    && 0 <= h[n].time && (n > 0 ==> h[n - 1].time <= h[n].time)
    && h[n].count == InWindow(h[..n], window, h[n].time) < limit
  }

  lemma {:induction false} LegalOrder(h: History, window: int, limit: int)
    requires Legal(h, window, limit)
    ensures Sorted(h) && forall i | 0 <= i < |h| :: 0 <= h[i].time <= h[|h| - 1].time
  {
    if h != [] {
      LegalOrder(h[..|h| - 1], window, limit);
    }
  }

  lemma {:induction false} LegalMembers(h: History, window: int, limit: int)
    requires Legal(h, window, limit) && window >= 1
    ensures Distinct(h) && Ranked(h, window)
  {
    if h != [] {
      var n := |h| - 1;
      LegalMembers(h[..n], window, limit);
      LegalOrder(h, window, limit);
      LegalOrder(h[..n], window, limit);
      UpToAll(h[..n], h[n].time);
      NewMember(h[..n], window, h[n]);
      assert h == h[..n] + [h[n]];
    }
  }

  /** Main theorem about the specification: in a legal history every window of that length
      anywhere in time holds at most `limit` admissions, and no two members collide. */
  lemma {:induction false} LegalHistories(h: History, window: int, limit: int)
    requires Legal(h, window, limit) && window >= 1
    ensures Sorted(h) && Distinct(h) && forall i | 0 <= i < |h| :: 0 <= h[i].time
    ensures 0 <= limit ==> Bounded(h, window, limit)
  {
    LegalOrder(h, window, limit);
    LegalMembers(h, window, limit);
    if h != [] && 0 <= limit {
      var n := |h| - 1;
      LegalHistories(h[..n], window, limit);
      AdmissionKeepsBound(h[..n], window, limit, h[n]);
      assert h == h[..n] + [h[n]];
    }
  }

  /** Trimming at a call leaves exactly the window's admissions in the sorted set, also
      when the key has expired before. */
  lemma AtCall(h: History, window: int, oldest: nat, last: int, now: int)
    requires Sorted(h) && Distinct(h) && window >= 1 && forall i | 0 <= i < |h| :: 0 <= h[i].time <= now
    requires oldest <= UpTo(h, last - window) && last <= now
    ensures RemoveUpTo(Zset(h[oldest..]), now - window) == Zset(h[UpTo(h, now - window)..])
    ensures |Zset(h[UpTo(h, now - window)..])| == InWindow(h, window, now)
  {
    var k := UpTo(h, now - window);
    UpToMonotone(h, last - window, now - window);
    TrimZset(h, oldest, now - window);
    UpToAll(h, now);
    DistinctSuffix(h, k);
    ZsetSize(h[k..]);
  }

  /** A key that has expired held nothing the trimming would have kept. */
  lemma ExpiredIsTrimmed(h: History, window: int, now: int)
    requires forall i | 0 <= i < |h| :: h[i].time + window <= now
    ensures RemoveUpTo(map[], now - window) == Zset(h[UpTo(h, now - window)..])
  {
    UpToAll(h, now - window);
    assert h[UpTo(h, now - window)..] == [];
  }

  /** What the limiter needs at a call, from what it knows about a legal history. */
  lemma AtLegalCall(h: History, window: int, limit: int, oldest: nat, last: int, now: int)
    requires Legal(h, window, limit) && window >= 1 && last <= now && (h != [] ==> h[|h| - 1].time <= last)
    requires oldest <= UpTo(h, last - window)
    ensures RemoveUpTo(Zset(h[oldest..]), now - window) == Zset(h[UpTo(h, now - window)..])
    ensures |Zset(h[UpTo(h, now - window)..])| == InWindow(h, window, now)
    ensures h == [] || h[|h| - 1].time + window <= now ==>
              RemoveUpTo(map[], now - window) == Zset(h[UpTo(h, now - window)..])
  {
    LegalHistories(h, window, limit);
    assert forall i | 0 <= i < |h| :: h[i].time <= h[|h| - 1].time;
    AtCall(h, window, oldest, last, now);
    if h == [] || h[|h| - 1].time + window <= now {
      ExpiredIsTrimmed(h, window, now);
    }
  }

  lemma AtAdmission(h: History, window: int, limit: int, a: Admission)
    requires Legal(h, window, limit) && window >= 1 && 0 <= a.time && (h != [] ==> h[|h| - 1].time <= a.time)
    requires a.count == InWindow(h, window, a.time) < limit
    ensures Legal(h + [a], window, limit)
    ensures UpTo(h + [a], a.time - window) == UpTo(h, a.time - window)
  {
    assert (h + [a])[..|h|] == h;
  }

  // ---------- The sorted set ----------

  /** Members with their scores. */
  function Zset(h: History): map<Admission, int> {
    if h == [] then map[] else Zset(h[..|h| - 1])[h[|h| - 1] := h[|h| - 1].time]
  }

  lemma {:induction false} ZsetMembers(h: History)
    ensures forall a :: a in Zset(h) <==> a in h
    ensures forall a | a in Zset(h) :: Zset(h)[a] == a.time
  {
    if h != [] {
      ZsetMembers(h[..|h| - 1]);
      assert h == h[..|h| - 1] + [h[|h| - 1]];
    }
  }

  lemma {:induction false} ZsetSize(h: History)
    requires Distinct(h)
    ensures |Zset(h)| == |h|
  {
    if h != [] {
      var n := |h| - 1;
      ZsetSize(h[..n]);
      ZsetMembers(h[..n]);
      assert h[n] !in h[..n];
    }
  }

  /** ZREMRANGEBYSCORE key 0 cut */
  function RemoveUpTo(z: map<Admission, int>, cut: int): map<Admission, int> {
    map a | a in z && !(0 <= z[a] <= cut) :: z[a]
  }

  /** Trimming keeps exactly the admissions after the cut. */
  lemma TrimZset(h: History, k: nat, cut: int)
    requires Sorted(h) && k <= UpTo(h, cut) && forall i | 0 <= i < |h| :: 0 <= h[i].time
    ensures RemoveUpTo(Zset(h[k..]), cut) == Zset(h[UpTo(h, cut)..])
  {
    var stored, kept := h[k..], h[UpTo(h, cut)..];
    ZsetMembers(stored);
    ZsetMembers(kept);
    forall a ensures a in stored && !(0 <= a.time <= cut) <==> a in kept {
      LaterThanCut(h, k, cut, a);
    }
    TrimmedIs(Zset(stored), Zset(kept), stored, kept, cut);
  }

  lemma TrimmedIs(z: map<Admission, int>, z': map<Admission, int>, stored: History, kept: History, cut: int)
    requires (forall a :: a in z <==> a in stored) && forall a | a in z :: z[a] == a.time
    requires (forall a :: a in z' <==> a in kept) && forall a | a in z' :: z'[a] == a.time
    requires forall a :: a in stored && !(0 <= a.time <= cut) <==> a in kept
    ensures RemoveUpTo(z, cut) == z'
  {
    var r := RemoveUpTo(z, cut);
    forall a ensures a in r <==> a in z' {
      assert a in stored && !(0 <= a.time <= cut) <==> a in kept;
    }
  }

  lemma LaterThanCut(h: History, k: nat, cut: int, a: Admission)
    requires Sorted(h) && k <= UpTo(h, cut) && forall i | 0 <= i < |h| :: 0 <= h[i].time
    ensures a in h[k..] && !(0 <= a.time <= cut) <==> a in h[UpTo(h, cut)..]
  {
    UpToSplits(h, cut);
    var c := UpTo(h, cut);
    if a in h[k..] && a.time > cut {
      var i :| k <= i < |h| && h[i] == a;
      InSuffix(h, c, i);
    }
    if a in h[c..] {
      var i :| c <= i < |h| && h[i] == a;
      InSuffix(h, k, i);
    }
  }

  lemma InSuffix(h: History, k: nat, i: nat)
    requires k <= i < |h|
    ensures h[i] in h[k..]
  {
    assert h[k..][i - k] == h[i];
  }

  /** EXPIRE takes whole seconds, rounded up; in ticks again, that covers the window. */
  function Expiry(window: int, ticks: int): (r: int)
    requires ticks >= 1
    ensures window <= r < window + ticks
  {
    var q := (window + ticks - 1) / ticks;
    assert window + ticks - 1 < q * ticks + ticks;
    q * ticks
  }

  /** One limiter key. `history` is every admission ever made, `oldest` the first one
      still stored. */
  class Limiter {
    const window: int
    const limit: int
    const ticksPerSecond: int
    var zset: map<Admission, int>
    var expireAt: int
    ghost var history: History
    ghost var oldest: nat
    ghost var last: int

    constructor (window: int, limit: int, ticksPerSecond: int)
      requires window >= 1 && ticksPerSecond >= 1
      ensures Valid() && history == [] && last == 0
      ensures this.window == window && this.limit == limit
    {
      this.window := window;
      this.limit := limit;
      this.ticksPerSecond := ticksPerSecond;
      this.zset := map[];
      this.expireAt := 0;
      this.history := [];
      this.oldest := 0;
      this.last := 0;
    }

    ghost predicate Valid()
      reads this
    {
      && window >= 1 && ticksPerSecond >= 1 && 0 <= last
      && Legal(history, window, limit) && (history != [] ==> history[|history| - 1].time <= last)
      && oldest <= UpTo(history, last - window) && zset == Zset(history[oldest..])
      && (history != [] ==> history[|history| - 1].time + window <= expireAt)
    }

    /** The script. It admits exactly when the history holds fewer than `limit` admissions
        in (now - window, now]. */
    method Allow(now: int) returns (allowed: bool)
      requires Valid() && last <= now
      modifies this
      ensures Valid() && last == now
      ensures allowed <==> |set i | 0 <= i < |old(history)| && now - window < old(history)[i].time <= now| < limit
      ensures allowed <==> InWindow(old(history), window, now) < limit
      ensures history == if allowed then old(history) + [Admission(now, InWindow(old(history), window, now))]
                         else old(history)
    {
      InWindowCounts(history, window, now);
      Trim(now);
      var count := |zset|;
      allowed := count < limit;
      if allowed {
        Record(Admission(now, count));
      }
    }

    /** Key expiry and ZREMRANGEBYSCORE. */
    method Trim(now: int)
      requires Valid() && last <= now
      modifies this`zset, this`last, this`oldest
      ensures Valid() && last == now && oldest == UpTo(history, now - window)
      ensures |zset| == InWindow(history, window, now)
    {
      AtLegalCall(history, window, limit, oldest, last, now);
      // an expired key is gone; then trimming has nothing left to do
      if expireAt <= now {
        zset := map[];
      }
      zset := RemoveUpTo(zset, now - window);
      oldest := UpTo(history, now - window);
      last := now;
    }

    /** ZADD and EXPIRE. */
    method Record(a: Admission)
      requires Valid() && last == a.time && oldest == UpTo(history, a.time - window)
      requires a.count == InWindow(history, window, a.time) < limit
      modifies this`zset, this`expireAt, this`history
      ensures Valid() && history == old(history) + [a]
    {
      AtAdmission(history, window, limit, a);
      ZsetAppend(history, oldest, a);
      ghost var h' := history + [a];
      assert h'[|h'| - 1] == a;
      zset := zset[a := a.time];
      expireAt := a.time + Expiry(window, ticksPerSecond);
      history := h';
    }
  }

  lemma DistinctSuffix(h: History, k: nat)
    requires Distinct(h) && k <= |h|
    ensures Distinct(h[k..])
  {
  }

  lemma ZsetAppend(h: History, k: nat, a: Admission)
    requires k <= |h|
    ensures Zset((h + [a])[k..]) == Zset(h[k..])[a := a.time]
  {
    assert (h + [a])[k..] == h[k..] + [a];
  }
}
