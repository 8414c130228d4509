/** The token-bucket limiter. */
module TokenBucket {

  datatype Config = Config(capacity: int, rate: real)

  predicate ValidConfig(c: Config) { 0 <= c.capacity && 0.0 < c.rate }

  /** The hash behind a limiter key. */
  datatype Key = Missing | Bucket(tokens: int, lastRefill: real)

  datatype Call = Call(requested: int, now: real)

  function Max(x: real, y: real): real { if x >= y then x else y }

  function Min(x: int, y: int): int { if x <= y then x else y }

  function Ceil(x: real): int { -((-x).Floor) }

  /** Tokens at hand once a call at `now` has refilled the bucket. */
  function Refilled(c: Config, k: Key, now: real): int {
    match k
    case Missing => c.capacity
    case Bucket(tokens, last) => Min(tokens + NewTokens(c, Max(now - last, 0.0)), c.capacity)
  }

  /** The tokens after the whole ones of the time since the last refill, no more than fit. */
  function FilledUp(tokens: int, capacity: int, rate: real, last: real, now: real): int {
    var elapsed := if now >= last then now - last else 0.0;
    var filled := tokens + (elapsed * rate).Floor;
    if filled <= capacity then filled else capacity
  }

  /** Whole tokens that come in during `elapsed`. */
  function NewTokens(c: Config, elapsed: real): int { (elapsed * c.rate).Floor }

  function Granted(c: Config, k: Key, call: Call): int {
    if call.requested <= Refilled(c, k, call.now) then call.requested else 0
  }

  function After(c: Config, k: Key, call: Call): Key {
    Bucket(Refilled(c, k, call.now) - Granted(c, k, call), call.now)
  }

  /** The whole seconds that fill a bucket, and ten more. */
  function Lifetime(c: Config): (r: int)
    requires ValidConfig(c)
    ensures c.capacity as real / c.rate + 10.0 <= r as real < c.capacity as real / c.rate + 11.0
  {
    Ceil(c.capacity as real / c.rate) + 10
  }

  predicate TokensOk(c: Config, k: Key) {
    k.Bucket? ==> 0 <= k.tokens <= c.capacity
  }

  // ---------- Arithmetic ----------

  lemma FloorSuperadditive(x: real, y: real)
    ensures x.Floor + y.Floor <= (x + y).Floor
  {
  }

  lemma NewTokensAdd(c: Config, t0: real, t1: real, t2: real)
    ensures NewTokens(c, t1 - t0) + NewTokens(c, t2 - t1) <= NewTokens(c, t2 - t0)
  {
    var x, y := t1 - t0, t2 - t1;
    assert (x + y) * c.rate == x * c.rate + y * c.rate;
    assert t2 - t0 == x + y;
    FloorSuperadditive(x * c.rate, y * c.rate);
  }

  lemma ProductMonotone(x: real, y: real, rate: real)
    requires x <= y && 0.0 < rate
    ensures x * rate <= y * rate
  {
  }

  /** A key that expired is worth as much as a key that was kept. */
  lemma ExpiryIsRefillToFull(c: Config, k: Key, now: real)
    requires ValidConfig(c) && TokensOk(c, k) && k.Bucket? && k.lastRefill + Lifetime(c) as real <= now
    ensures Refilled(c, k, now) == Refilled(c, Missing, now)
  {
    EnoughTime(c, now - k.lastRefill);
  }

  /** A key's lifetime is enough to fill it. */
  lemma EnoughTime(c: Config, elapsed: real)
    requires ValidConfig(c) && Lifetime(c) as real <= elapsed
    ensures 0.0 <= elapsed && c.capacity <= NewTokens(c, elapsed)
  {
    var full := c.capacity as real / c.rate;
    FullTimesRate(c.capacity as real, c.rate);
    CeilAbove(full);
    ProductMonotone(full, elapsed, c.rate);
  }

  lemma FullTimesRate(capacity: real, rate: real)
    requires 0.0 < rate && 0.0 <= capacity
    ensures capacity / rate * rate == capacity && 0.0 <= capacity / rate
  {
  }

  lemma CeilAbove(x: real)
    ensures x <= Ceil(x) as real
  {
  }

  /** Every call leaves between 0 and `capacity` tokens. */
  lemma TokensStayInRange(c: Config, k: Key, call: Call)
    requires ValidConfig(c) && TokensOk(c, k) && 0 <= call.requested
    ensures TokensOk(c, After(c, k, call)) && 0 <= Refilled(c, k, call.now) <= c.capacity
  {
    if k.Bucket? {
      NewTokensNatural(c, Max(call.now - k.lastRefill, 0.0));
    }
  }

  lemma NewTokensNatural(c: Config, elapsed: real)
    requires 0.0 < c.rate && 0.0 <= elapsed
    ensures 0 <= NewTokens(c, elapsed)
  {
    ProductMonotone(0.0, elapsed, c.rate);
    assert 0.0 <= elapsed * c.rate;
  }

  // ---------- Any run of consecutive calls ----------

  function Total(c: Config, k: Key, calls: seq<Call>): int
    decreases |calls|
  {
    if calls == [] then 0 else Granted(c, k, calls[0]) + Total(c, After(c, k, calls[0]), calls[1..])
  }

  function Final(c: Config, k: Key, calls: seq<Call>): Key
    decreases |calls|
  {
    if calls == [] then k else Final(c, After(c, k, calls[0]), calls[1..])
  }

  predicate InOrder(calls: seq<Call>) {
    && (forall i | 0 <= i < |calls| :: 0 <= calls[i].requested)
    && forall i, j | 0 <= i < j < |calls| :: calls[i].now <= calls[j].now
  }

  lemma OneCall(c: Config, k: Key, call: Call)
    requires ValidConfig(c) && TokensOk(c, k) && 0 <= call.requested
    ensures Granted(c, k, call) + After(c, k, call).tokens <= c.capacity
    ensures k.Bucket? && k.lastRefill <= call.now ==>
              Granted(c, k, call) + After(c, k, call).tokens <= k.tokens + NewTokens(c, call.now - k.lastRefill)
  {
    TokensStayInRange(c, k, call);
  }

  /** What was granted plus what is left comes from the tokens at the start plus the
      refill over the whole time. */
  lemma {:induction false} GrantsAreRefills(c: Config, k: Key, calls: seq<Call>)
    requires ValidConfig(c) && k.Bucket? && TokensOk(c, k) && InOrder(calls) && calls != []
    requires k.lastRefill <= calls[0].now
    ensures Final(c, k, calls).Bucket? && TokensOk(c, Final(c, k, calls))
    ensures Total(c, k, calls) + Final(c, k, calls).tokens
            <= k.tokens + NewTokens(c, calls[|calls| - 1].now - k.lastRefill)
    decreases |calls|
  {
    TokensStayInRange(c, k, calls[0]);
    OneCall(c, k, calls[0]);
    var k1, rest := After(c, k, calls[0]), calls[1..];
    if rest == [] {
      assert Total(c, k1, rest) == 0 && Final(c, k1, rest) == k1;
    } else {
      GrantsAreRefills(c, k1, rest);
      NewTokensAdd(c, k.lastRefill, calls[0].now, calls[|calls| - 1].now);
    }
  }

  /** Main theorem: from any state, consecutive calls grant at most one bucketful plus the
      whole tokens of the time between the first and the last of them. */
  lemma GrantBound(c: Config, k: Key, calls: seq<Call>)
    requires ValidConfig(c) && TokensOk(c, k) && InOrder(calls) && calls != []
    ensures Total(c, k, calls) <= c.capacity + NewTokens(c, calls[|calls| - 1].now - calls[0].now)
  {
    TokensStayInRange(c, k, calls[0]);
    OneCall(c, k, calls[0]);
    var k1, rest := After(c, k, calls[0]), calls[1..];
    if rest == [] {
      assert Total(c, k1, rest) == 0;
      assert |calls| == 1 && calls[|calls| - 1].now - calls[0].now == 0.0;
      assert NewTokens(c, 0.0) == 0;
    } else {
      GrantsAreRefills(c, k1, rest);
    }
  }

  lemma {:induction false} PrefixStaysInRange(c: Config, k: Key, calls: seq<Call>)
    requires ValidConfig(c) && TokensOk(c, k) && forall i | 0 <= i < |calls| :: 0 <= calls[i].requested
    ensures TokensOk(c, Final(c, k, calls))
    decreases |calls|
  {
    if calls != [] {
      TokensStayInRange(c, k, calls[0]);
      PrefixStaysInRange(c, After(c, k, calls[0]), calls[1..]);
    }
  }

  /** The same for calls i..j of a longer run. */
  lemma GrantBoundInside(c: Config, k: Key, calls: seq<Call>, i: nat, j: nat)
    requires ValidConfig(c) && TokensOk(c, k) && InOrder(calls) && i < j <= |calls|
    ensures Total(c, Final(c, k, calls[..i]), calls[i..j])
            <= c.capacity + NewTokens(c, calls[j - 1].now - calls[i].now)
  {
    PrefixStaysInRange(c, k, calls[..i]);
    GrantBound(c, Final(c, k, calls[..i]), calls[i..j]);
  }

  /** One limiter key on the server. `kept` is what the key would hold had it never expired. */
  class Limiter {
    const c: Config
    var tokens: int
    var lastRefill: real
    var present: bool
    var expireAt: real
    ghost var kept: Key

    constructor (c: Config)
      requires ValidConfig(c)
      ensures Valid() && kept == Missing && this.c == c
    {
      this.c := c;
      this.tokens := 0;
      this.lastRefill := 0.0;
      this.present := false;
      this.expireAt := 0.0;
      this.kept := Missing;
    }

    ghost predicate Valid()
      reads this
    {
      && ValidConfig(c) && TokensOk(c, kept) && (present <==> kept.Bucket?)
      && (present ==> kept == Bucket(tokens, lastRefill) && expireAt == lastRefill + Lifetime(c) as real)
    }

    /** The script, key expiry included. */
    method Allow(requested: int, now: real) returns (allowed: bool)
      requires Valid() && 0 <= requested
      modifies this
      ensures Valid() && kept == After(c, old(kept), Call(requested, now))
      ensures allowed <==> requested <= Refilled(c, old(kept), now)
      ensures tokens == Refilled(c, old(kept), now) - (if allowed then requested else 0) && lastRefill == now
      ensures old(kept).Missing? ==> tokens + (if allowed then requested else 0) == c.capacity
      ensures old(kept).Bucket? ==>
                tokens + (if allowed then requested else 0)
                == FilledUp(old(kept.tokens), c.capacity, c.rate, old(kept.lastRefill), now)
    {
      allowed := Script(requested, now);
    }

    method Script(requested: int, now: real) returns (allowed: bool)
      requires Valid() && 0 <= requested
      modifies this
      ensures Valid() && kept == After(c, old(kept), Call(requested, now))
      ensures allowed <==> requested <= Refilled(c, old(kept), now)
    {
      TokensStayInRange(c, kept, Call(requested, now));
      if present && expireAt <= now {
        ExpiryIsRefillToFull(c, kept, now);
        present := false;
      }
      if !present {
        tokens := c.capacity;
        lastRefill := now;
      }
      var elapsed := Max(now - lastRefill, 0.0);
      tokens := Min(tokens + NewTokens(c, elapsed), c.capacity);
      lastRefill := now;
      allowed := false;
      if tokens >= requested {
        tokens := tokens - requested;
        allowed := true;
      }
      present := true;
      expireAt := now + Lifetime(c) as real;
      kept := Bucket(tokens, lastRefill);
    }
  }

  // ---------- What the answers add up to ----------

  /** One bucketful, and the whole tokens of the time between. */
  function MayPass(capacity: int, rate: real, from: real, to: real): int {
    capacity + ((to - from) * rate).Floor
  }

  /** The tokens of the calls i..j that were allowed. */
  function Allowed(calls: seq<Call>, answers: seq<bool>, i: nat, j: nat): int
    requires i <= j <= |calls| == |answers|
  {
    if i == j then 0 else Allowed(calls, answers, i, j - 1) + if answers[j - 1] then calls[j - 1].requested else 0
  }

  lemma {:induction false} FinalGrows(c: Config, k: Key, calls: seq<Call>, call: Call)
    ensures Final(c, k, calls + [call]) == After(c, Final(c, k, calls), call)
    ensures Total(c, k, calls + [call]) == Total(c, k, calls) + Granted(c, Final(c, k, calls), call)
    decreases |calls|
  {
    if calls == [] {
      assert [call][1..] == [] && calls + [call] == [call];
    } else {
      assert (calls + [call])[1..] == calls[1..] + [call];
      FinalGrows(c, After(c, k, calls[0]), calls[1..], call);
    }
  }

  /** Every answer says whether the bucket held enough. */
  predicate AnswersOk(c: Config, k: Key, calls: seq<Call>, answers: seq<bool>) {
    && |answers| == |calls|
    && forall x | 0 <= x < |calls| ::
         answers[x] <==> calls[x].requested <= Refilled(c, Final(c, k, calls[..x]), calls[x].now)
  }

  lemma {:induction false} AllowedIsGranted(c: Config, k: Key, calls: seq<Call>, answers: seq<bool>, i: nat, j: nat)
    requires AnswersOk(c, k, calls, answers) && i <= j <= |calls|
    ensures Allowed(calls, answers, i, j) == Total(c, Final(c, k, calls[..i]), calls[i..j])
    ensures Final(c, Final(c, k, calls[..i]), calls[i..j]) == Final(c, k, calls[..j])
    decreases j
  {
    if i < j {
      AllowedIsGranted(c, k, calls, answers, i, j - 1);
      assert calls[i..j] == calls[i..j - 1] + [calls[j - 1]];
      assert calls[..j] == calls[..j - 1] + [calls[j - 1]];
      FinalGrows(c, Final(c, k, calls[..i]), calls[i..j - 1], calls[j - 1]);
      FinalGrows(c, k, calls[..j - 1], calls[j - 1]);
    }
  }

  /** Main theorem on the limiter itself: of any consecutive calls i..j, those that are allowed
      ask for at most one bucketful plus the whole tokens of the time from the first to the last. */
  method RunCalls(l: Limiter, calls: seq<Call>) returns (answers: seq<bool>)
    requires l.Valid() && InOrder(calls)
    modifies l
    ensures l.Valid() && |answers| == |calls|
    ensures forall i, j | 0 <= i < j <= |calls| ::
              Allowed(calls, answers, i, j) <= MayPass(l.c.capacity, l.c.rate, calls[i].now, calls[j - 1].now)
  {
    ghost var k := l.kept;
    answers := [];
    for x := 0 to |calls|
      invariant l.Valid() && |answers| == x && l.kept == Final(l.c, k, calls[..x])
      invariant AnswersOk(l.c, k, calls[..x], answers)
    {
      assert calls[..x + 1] == calls[..x] + [calls[x]];
      FinalGrows(l.c, k, calls[..x], calls[x]);
      var allowed := l.Allow(calls[x].requested, calls[x].now);
      assert Call(calls[x].requested, calls[x].now) == calls[x];
      AnswersGrow(l.c, k, calls[..x], answers, calls[x], allowed);
      answers := answers + [allowed];
    }
    assert calls[..|calls|] == calls;
    forall i, j | 0 <= i < j <= |calls|
      ensures Allowed(calls, answers, i, j) <= MayPass(l.c.capacity, l.c.rate, calls[i].now, calls[j - 1].now)
    {
      AllowedBound(l.c, k, calls, answers, i, j);
    }
  }

  lemma AllowedBound(c: Config, k: Key, calls: seq<Call>, answers: seq<bool>, i: nat, j: nat)
    requires ValidConfig(c) && TokensOk(c, k) && InOrder(calls) && AnswersOk(c, k, calls, answers)
    requires i < j <= |calls|
    ensures Allowed(calls, answers, i, j) <= MayPass(c.capacity, c.rate, calls[i].now, calls[j - 1].now)
  {
    AllowedIsGranted(c, k, calls, answers, i, j);
    GrantBoundInside(c, k, calls, i, j);
    MayPassIs(c, calls[i].now, calls[j - 1].now);
  }

  lemma MayPassIs(c: Config, from: real, to: real)
    ensures MayPass(c.capacity, c.rate, from, to) == c.capacity + NewTokens(c, to - from)
  {
  }

  lemma AnswersGrow(c: Config, k: Key, calls: seq<Call>, answers: seq<bool>, call: Call, answer: bool)
    requires AnswersOk(c, k, calls, answers)
    requires answer <==> call.requested <= Refilled(c, Final(c, k, calls), call.now)
    ensures AnswersOk(c, k, calls + [call], answers + [answer])
  {
    forall x | 0 <= x <= |calls| ensures (calls + [call])[..x] == calls[..x] {
    }
    assert calls[..|calls|] == calls;
  }
}
