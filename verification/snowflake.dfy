/** Snowflake ids: milliseconds, worker and sequence packed into one integer. */
module Snowflake {
  import opened RedisReply

  const EPOCH: int := 1700000000000
  const MAX_WORKER: int := 1023
  const MAX_SEQUENCE: int := 4095

  // ---------- Bit operations on Python integers ----------

  function Pow2(n: nat): nat
  {
    if n == 0 then 1 else 2 * Pow2(n - 1)
  }

  function ShiftLeft(a: int, n: nat): int { a * Pow2(n) }

  /** a | b, bit by bit; `a` may be negative (two's complement). */
  function BitOr(a: int, b: nat): int
    decreases b
  {
    if b == 0 then a
    else 2 * BitOr(a / 2, b / 2) + (if a % 2 == 1 || b % 2 == 1 then 1 else 0)
  }

  /** a & b for natural numbers. */
  function BitAnd(a: nat, b: nat): nat
    decreases b
  {
    if b == 0 then 0
    else 2 * BitAnd(a / 2, b / 2) + (if a % 2 == 1 && b % 2 == 1 then 1 else 0)
  }

  /** Bit k of a number, in two's complement if it is negative. */
  function Bit(a: int, k: nat): bool
    decreases k
  {
    if k == 0 then a % 2 == 1 else Bit(a / 2, k - 1)
  }

  lemma {:induction false} OrIsBitwise(a: int, b: nat, k: nat)
    ensures Bit(BitOr(a, b), k) <==> Bit(a, k) || Bit(b, k)
    decreases k
  {
    if b == 0 {
      NoBits(k);
    } else if k > 0 {
      OrIsBitwise(a / 2, b / 2, k - 1);
    }
  }

  lemma {:induction false} AndIsBitwise(a: nat, b: nat, k: nat)
    ensures Bit(BitAnd(a, b), k) <==> Bit(a, k) && Bit(b, k)
    decreases k
  {
    if b == 0 {
      NoBits(k);
    } else if k > 0 {
      AndIsBitwise(a / 2, b / 2, k - 1);
    }
  }

  lemma {:induction false} NoBits(k: nat)
    ensures !Bit(0, k)
  {
    if k > 0 {
      NoBits(k - 1);
    }
  }

  lemma {:induction false} OrDisjoint(a: int, b: nat, n: nat)
    requires b < Pow2(n)
    ensures BitOr(a * Pow2(n), b) == a * Pow2(n) + b
    decreases n
  {
    if n > 0 && b > 0 {
      var p := Pow2(n - 1);
      assert a * Pow2(n) == 2 * (a * p);
      assert (2 * (a * p)) / 2 == a * p && (2 * (a * p)) % 2 == 0;
      OrDisjoint(a, b / 2, n - 1);
    }
  }

  /** Masking with 2^n - 1 is the remainder modulo 2^n. */
  lemma {:induction false} MaskIsMod(a: nat, n: nat)
    requires Pow2(n) > 0
    ensures BitAnd(a, Pow2(n) - 1) == a % Pow2(n)
    decreases n
  {
    if n > 0 {
      var p := Pow2(n - 1);
      Pow2Positive(n - 1);
      MaskIsMod(a / 2, n - 1);
      MaskStep(a, p);
      ModDouble(a, p);
    } else {
      assert a % 1 == 0;
    }
  }

  /** A mask that is one bit longer keeps one more bit. */
  lemma MaskStep(a: nat, p: nat)
    requires p > 0
    ensures BitAnd(a, 2 * p - 1) == 2 * BitAnd(a / 2, p - 1) + a % 2
  {
    var b := 2 * p - 1;
    assert b / 2 == p - 1 && b % 2 == 1;
  }

  lemma {:induction false} Pow2Positive(n: nat)
    ensures Pow2(n) > 0
  {
    if n > 0 {
      Pow2Positive(n - 1);
    }
  }

  lemma ModDouble(a: nat, p: nat)
    requires p > 0
    ensures a % (2 * p) == 2 * (a / 2 % p) + a % 2
  {
    var h := a / 2;
    var q, r := h / p, h % p;
    assert a == 2 * (p * q + r) + a % 2;
    assert a == (2 * p) * q + (2 * r + a % 2);
    assert 2 * r + a % 2 < 2 * p;
    DivModUnique(a, 2 * p, q, 2 * r + a % 2);
  }

  lemma DivModUnique(a: int, d: int, q: int, r: int)
    requires d > 0 && a == d * q + r && 0 <= r < d
    ensures a / d == q && a % d == r
  {
    var q' := a / d;
    if q' > q {
      MulMonotone(d, q + 1, q');
    } else if q' < q {
      MulMonotone(d, q' + 1, q);
    }
  }

  lemma MulMonotone(d: int, x: int, y: int)
    requires d > 0 && x <= y
    ensures d * x <= d * y
    ensures d * (x - 1) == d * x - d
  {
  }

  lemma Powers()
    ensures Pow2(10) == 1024 && Pow2(12) == 4096 && Pow2(22) == 4194304
    ensures MAX_WORKER == Pow2(10) - 1 && MAX_SEQUENCE == Pow2(12) - 1
  {
    assert Pow2(4) == 16;
    assert Pow2(8) == 256;
    assert Pow2(10) == 1024;
    assert Pow2(12) == 4096;
    assert Pow2(16) == 65536;
    assert Pow2(20) == 1048576;
    assert Pow2(22) == 4194304;
  }

  // ---------- Packing ----------

  /** ((t - EPOCH) << 22) | (worker << 12) | sequence */
  function Pack(t: int, worker: nat, sequence: nat): int {
    BitOr(BitOr(ShiftLeft(t - EPOCH, 22), worker * Pow2(12)), sequence)
  }

  /** Reads the fields back: time, worker, sequence. */
  function Unpack(id: int): (int, int, int) {
    (id / 4194304 + EPOCH, id / 4096 % 1024, id % 4096)
  }

  lemma PackIsSum(t: int, worker: nat, sequence: nat)
    requires worker <= 1023 && sequence <= 4095
    ensures Pack(t, worker, sequence) == (t - 1700000000000) * 4194304 + worker * 4096 + sequence
  {
    Powers();
    FieldsAdd(t - EPOCH, worker, sequence, 22, 12);
  }

  /** Three fields side by side. */
  lemma FieldsAdd(a: int, b: nat, c: nat, m: nat, n: nat)
    requires Pow2(m) == 1024 * Pow2(n) && b < 1024 && c < Pow2(n)
    ensures BitOr(BitOr(ShiftLeft(a, m), b * Pow2(n)), c) == a * Pow2(m) + b * Pow2(n) + c
  {
    var high := a * 1024 + b;
    UpperFields(a, b, Pow2(n));
    assert BitOr(a * Pow2(m), b * Pow2(n)) == high * Pow2(n) by {
      OrDisjoint(a, b * Pow2(n), m);
    }
    OrDisjoint(high, c, n);
  }

  lemma UpperFields(a: int, b: nat, p: nat)
    requires b < 1024 && p > 0
    ensures b * p < 1024 * p && a * (1024 * p) + b * p == (a * 1024 + b) * p
  {
    MulMonotone(p, b + 1, 1024);
  }

  /** Packing loses nothing, before or after the epoch. */
  lemma PackUnpack(t: int, worker: nat, sequence: nat)
    requires worker <= MAX_WORKER && sequence <= MAX_SEQUENCE
    ensures Unpack(Pack(t, worker, sequence)) == (t, worker, sequence)
  {
    PackIsSum(t, worker, sequence);
    var id := Pack(t, worker, sequence);
    DivModUnique(id, 4194304, t - EPOCH, worker * 4096 + sequence);
    DivModUnique(id, 4096, (t - EPOCH) * 1024 + worker, sequence);
    DivModUnique((t - EPOCH) * 1024 + worker, 1024, t - EPOCH, worker);
  }

  /** Ids of timestamps within 41 bits of the epoch fit into a signed 64-bit integer. */
  lemma PackFits(t: int, worker: nat, sequence: nat)
    requires worker <= MAX_WORKER && sequence <= MAX_SEQUENCE
    requires 0 <= t - 1700000000000 < 0x200_0000_0000
    ensures 0 <= Pack(t, worker, sequence) < 0x8000_0000_0000_0000
  {
    PackIsSum(t, worker, sequence);
  }

  /** Ids order like (time, sequence). */
  lemma PackOrder(t: int, s: nat, t': int, s': nat, worker: nat)
    requires worker <= MAX_WORKER && s <= MAX_SEQUENCE && s' <= MAX_SEQUENCE
    requires t < t' || (t == t' && s < s')
    ensures Pack(t, worker, s) < Pack(t', worker, s')
  {
    PackIsSum(t, worker, s);
    PackIsSum(t', worker, s');
  }

  /** The worker id must fit its ten bits: the generator does not check the one it is given. */
  lemma WorkersSeparateIff(worker: nat)
    ensures (forall t: int, s: nat | s <= 4095 :: Unpack(Pack(t, worker, s)) == (t, worker, s))
            <==> worker <= 1023
  {
    if worker <= MAX_WORKER {
      forall t: int, s: nat | s <= MAX_SEQUENCE ensures Unpack(Pack(t, worker, s)) == (t, worker, s) {
        PackUnpack(t, worker, s);
      }
    } else {
      var u := Unpack(Pack(EPOCH, worker, 0));
      assert u.1 < 1024;
      assert u != (EPOCH, worker, 0);
    }
  }

  // ---------- The generator ----------

  datatype Outcome = Id(id: int) | ClockBackwards(offset: int)

  /** The clock of one call: what each reading of time.time() returns. */
  datatype Clock = Clock(read: nat -> int)

  ghost predicate ComesAfter(clock: Clock, t: int, n: nat) {
    exists m: nat :: n <= m && clock.read(m) > t
  }

  predicate StrictlyIncreasing(ids: seq<int>) {
    forall i, j | 0 <= i < j < |ids| :: ids[i] < ids[j]
  }

  ghost predicate IsMask(mask: nat) { exists n: nat :: mask == Pow2(n) - 1 }

  lemma SequenceMask()
    ensures IsMask(MAX_SEQUENCE)
  {
    Powers();
  }

  /** a & mask for a mask of ones. */
  method And(a: nat, mask: nat) returns (r: nat)
    requires IsMask(mask)
    ensures r == a % (mask + 1)
  {
    ghost var n: nat :| mask == Pow2(n) - 1;
    MaskIsMod(a, n);
    r := BitAnd(a, mask);
  }

  /** The next sequence number, cut to twelve bits. */
  method Incremented(sequence: nat) returns (s: nat)
    requires sequence <= MAX_SEQUENCE
    ensures s == if sequence == MAX_SEQUENCE then 0 else sequence + 1
  {
    SequenceMask();
    s := And(sequence + 1, MAX_SEQUENCE);
  }

  class Generator {
    const worker: nat
    var sequence: nat
    var lastTimestamp: int
    ghost var issued: seq<int>

    constructor (worker: nat)
      requires worker <= MAX_WORKER
      ensures Valid() && issued == [] && this.worker == worker
    {
      this.worker := worker;
      this.sequence := 0;
      this.lastTimestamp := -1;
      this.issued := [];
    }

    ghost predicate Valid()
      reads this
    {
      && worker <= MAX_WORKER && sequence <= MAX_SEQUENCE
      && StrictlyIncreasing(issued)
      && (issued != [] ==> issued[|issued| - 1] == Pack(lastTimestamp, worker, sequence))
      && (issued == [] ==> lastTimestamp == -1 && sequence == 0)
      && forall i | 0 <= i < |issued| :: Unpack(issued[i]).1 == worker
    }

    /** The assumptions on the clock during one call: a sleep after a short rollback lasts
        at least as long as asked for, and the clock gets past the last timestamp. */
    ghost predicate ClockOk(clock: Clock)
      reads this
    {
      && 0 <= clock.read(0)
      && (0 < lastTimestamp - clock.read(0) <= 5 ==>
           clock.read(1) >= clock.read(0) + (lastTimestamp - clock.read(0)) + 1)
      && forall n: nat :: ComesAfter(clock, lastTimestamp, n)
    }

    /** Later in (time, sequence) order, by the smallest step of the sequence. */
    predicate Next(t: int, s: nat)
      reads this
    {
      (t > lastTimestamp && s == 0) || (t == lastTimestamp && s == sequence + 1 <= MAX_SEQUENCE)
    }

    /** One call. */
    method NextId(clock: Clock) returns (out: Outcome)
      requires Valid() && ClockOk(clock)
      modifies this
      ensures Valid()
      ensures out.ClockBackwards? <==> old(lastTimestamp) - clock.read(0) > 5
      ensures out.ClockBackwards? ==>
                issued == old(issued) && sequence == old(sequence) && lastTimestamp == old(lastTimestamp)
                && out.offset == old(lastTimestamp) - clock.read(0)
      ensures out.Id? ==> issued == old(issued) + [out.id] && out.id == Pack(lastTimestamp, worker, sequence)
      ensures out.Id? ==> out.id == (lastTimestamp - 1700000000000) * 4194304 + worker * 4096 + sequence
      ensures clock.read(0) > old(lastTimestamp) ==> out.Id? && lastTimestamp == clock.read(0) && sequence == 0
      ensures clock.read(0) == old(lastTimestamp) ==>
                && out.Id?
                && if old(sequence) < 4095 then lastTimestamp == old(lastTimestamp) && sequence == old(sequence) + 1
                   else lastTimestamp > old(lastTimestamp) && sequence == 0
      ensures out.Id? ==> (lastTimestamp > old(lastTimestamp) && sequence == 0)
                          || (lastTimestamp == old(lastTimestamp) && sequence == old(sequence) + 1)
      ensures out.Id? ==> exists n: nat :: lastTimestamp == clock.read(n)
    {
      var timestamp := clock.read(0);
      var n: nat := 0;
      if timestamp < lastTimestamp {
        var offset := lastTimestamp - timestamp;
        if offset <= 5 {
          n := 1;
          timestamp := clock.read(n);
        } else {
          return ClockBackwards(offset);
        }
      }
      var sequence';
      timestamp, sequence', n := NextSlot(clock, timestamp, n);
      IssueKeeps(issued, worker, lastTimestamp, sequence, timestamp, sequence');
      sequence := sequence';
      lastTimestamp := timestamp;
      var id := Pack(timestamp, worker, sequence);
      PackIsSum(timestamp, worker, sequence);
      issued := issued + [id];
      out := Id(id);
    }

    /** Count up inside a millisecond; when its numbers run out, wait for the next one. */
    method NextSlot(clock: Clock, now: int, from: nat) returns (timestamp: int, s: nat, n: nat)
      requires Valid() && lastTimestamp <= now == clock.read(from)
      requires forall m: nat :: ComesAfter(clock, lastTimestamp, m)
      ensures Next(timestamp, s) && timestamp == clock.read(n) && now <= timestamp
      ensures s <= MAX_SEQUENCE && (now > lastTimestamp ==> timestamp == now)
      ensures now == lastTimestamp && sequence < MAX_SEQUENCE ==> timestamp == now
    {
      timestamp, s, n := now, 0, from;
      if timestamp == lastTimestamp {
        s := Incremented(sequence);
        if s == 0 {
          timestamp, n := WaitNextMillis(clock, n);
        }
      }
    }

    /** Spin until the clock shows a later millisecond. */
    method WaitNextMillis(clock: Clock, from: nat) returns (timestamp: int, n: nat)
      requires forall m: nat :: ComesAfter(clock, lastTimestamp, m)
      ensures timestamp > lastTimestamp && timestamp == clock.read(n) && from < n
      ensures forall m | from < m < n :: clock.read(m) <= lastTimestamp
    {
      n := from + 1;
      timestamp := clock.read(n);
      assert ComesAfter(clock, lastTimestamp, n);
      ghost var bound: nat :| n <= bound && clock.read(bound) > lastTimestamp;
      while timestamp <= lastTimestamp
        invariant timestamp == clock.read(n) && from < n <= bound
        invariant forall m | from < m < n :: clock.read(m) <= lastTimestamp
        decreases bound - n
      {
        n := n + 1;
        timestamp := clock.read(n);
      }
    }
  }

  /** The next id is larger than all before and carries the same worker. */
  lemma IssueKeeps(issued: seq<int>, worker: nat, t: int, s: nat, t': int, s': nat)
    requires worker <= MAX_WORKER && s <= MAX_SEQUENCE && s' <= MAX_SEQUENCE && StrictlyIncreasing(issued)
    requires issued != [] ==> issued[|issued| - 1] == Pack(t, worker, s)
    requires t < t' || (t == t' && s < s')
    ensures StrictlyIncreasing(issued + [Pack(t', worker, s')])
    ensures Unpack(Pack(t', worker, s')).1 == worker
  {
    PackUnpack(t', worker, s');
    if issued != [] {
      PackOrder(t, s, t', s', worker);
    }
  }

  /** Generators with different worker ids never issue the same id. */
  lemma NoCollision(a: Generator, b: Generator, i: nat, j: nat)
    requires a.Valid() && b.Valid() && i < |a.issued| && j < |b.issued|
    ensures a.issued[i] == b.issued[j] ==> a.worker == b.worker
  {
    assert Unpack(a.issued[i]).1 == a.worker && Unpack(b.issued[j]).1 == b.worker;
  }

  // ---------- Worker numbers ----------

  /** What others do to the bitmap before the n-th SETBIT: set bits, or let it expire. */
  type Others = (nat, set<nat>) -> set<nat>

  /** The bitmap the n-th SETBIT of an allocation finds, all before having found their bit set. */
  function Found(bitmap: set<nat>, others: Others, n: nat): set<nat> {
    if n == 0 then others(0, bitmap) else others(n, Found(bitmap, others, n - 1))
  }

  /** The n-th SETBIT asks for this bit: all 1024 numbers in turn, round by round. */
  function Candidate(n: nat): nat { n % 1024 }

  predicate Refused(bitmap: set<nat>, others: Others, reply: nat -> Reply, n: nat) {
    reply(n).Answered? && Candidate(n) in Found(bitmap, others, n)
  }

  lemma CandidateOf(round: nat, candidate: nat)
    requires candidate < 1024
    ensures Candidate(1024 * round + candidate) == candidate
  {
    DivModUnique(1024 * round + candidate, 1024, round, candidate);
  }

  /** How start ends. `Unexpiring`: the number is taken, but its expiry raises. */
  datatype Allocation = Allocated(worker: int) | Unexpiring(worker: int) | Full | RedisFails

  /** What the first SETBIT that is not refused makes of the bitmap, and of the call. */
  predicate EndsAt(bitmap: set<nat>, others: Others, reply: nat -> Reply, expire: Reply, n: nat,
                   bitmap': set<nat>, out: Allocation) {
    var found, worker := Found(bitmap, others, n), Candidate(n);
    match reply(n)
    case Answered =>
      && worker !in found && bitmap' == found + {worker}
      && out == if expire.Answered? then Allocated(worker) else Unexpiring(worker)
    case FailedApplied => bitmap' == found + {worker} && out == RedisFails
    case FailedLost => bitmap' == found && out == RedisFails
  }

  /** SETBIT until a bit was clear before, up to 1024 rounds. The worker number is that of the
      first such bit, and at that moment nobody else had it set. */
  method AllocateWorker(bitmap: set<nat>, others: Others, reply: nat -> Reply, expire: Reply)
    returns (bitmap': set<nat>, out: Allocation, ghost n: nat)
    ensures out.Full? <==> forall i: nat | i < 1024 * 1024 :: Refused(bitmap, others, reply, i)
    ensures !out.Full? ==>
              && n < 1024 * 1024 && (out.Allocated? || out.Unexpiring? ==> out.worker == n % 1024)
              && (forall i: nat | i < n :: Refused(bitmap, others, reply, i)) && !Refused(bitmap, others, reply, n)
              && EndsAt(bitmap, others, reply, expire, n, bitmap', out)
  {
    bitmap' := bitmap;
    n := 0;
    for round := 0 to 1024
      invariant n == 1024 * round && forall i: nat | i < n :: Refused(bitmap, others, reply, i)
      invariant bitmap' == if n > 0 then Found(bitmap, others, n - 1) else bitmap
    {
      for candidate := 0 to 1024
        invariant n == 1024 * round + candidate && forall i: nat | i < n :: Refused(bitmap, others, reply, i)
        invariant bitmap' == if n > 0 then Found(bitmap, others, n - 1) else bitmap
      {
        CandidateOf(round, candidate);
        var answer;
        bitmap', answer := SetBitOnce(others(1024 * round + candidate, bitmap'), candidate,
                                      reply(1024 * round + candidate));
        if answer != 1 {
          assert !Refused(bitmap, others, reply, n);
          out := if answer == -1 then RedisFails
                 else if expire.Answered? then Allocated(candidate) else Unexpiring(candidate);
          return;
        }
        assert Refused(bitmap, others, reply, n);
        n := n + 1;
      }
    }
    out := Full;
  }

  /** SETBIT returns the bit as it was; -1 stands for an error. */
  method SetBitOnce(found: set<nat>, bit: nat, reply: Reply) returns (bitmap: set<nat>, answer: int)
    ensures bitmap == if reply.FailedLost? then found else found + {bit}
    ensures answer == if !reply.Answered? then -1 else if bit in found then 1 else 0
    ensures answer == 1 ==> bitmap == found
  {
    bitmap := if reply.FailedLost? then found else found + {bit};
    answer := if !reply.Answered? then -1 else if bit in found then 1 else 0;
  }

  datatype Option = None | Some(worker: int)

  /** A number given by the caller is taken as it is; without Redis the number comes from a
      hash of the host name; otherwise it is allocated. */
  method Start(given: Option, available: bool, hostHash: int, bitmap: set<nat>, others: Others,
               reply: nat -> Reply, expire: Reply) returns (bitmap': set<nat>, out: Allocation, ghost n: nat)
    ensures given.Some? ==> out == Allocated(given.worker) && bitmap' == bitmap
    ensures given.None? && !available ==>
              && bitmap' == bitmap && out.Allocated? && 0 <= out.worker <= MAX_WORKER
              && exists q: nat :: out.worker + 1024 * q == if hostHash >= 0 then hostHash else -hostHash
    ensures given.None? && available && !out.Full? ==>
              && (forall i: nat | i < n :: Refused(bitmap, others, reply, i))
              && EndsAt(bitmap, others, reply, expire, n, bitmap', out)
    ensures given.None? && (out.Allocated? || out.Unexpiring?) ==> 0 <= out.worker <= MAX_WORKER
  {
    n := 0;
    if given.Some? {
      return bitmap, Allocated(given.worker), n;
    }
    if !available {
      var h := if hostHash >= 0 then hostHash else -hostHash;
      assert h % 1024 + 1024 * (h / 1024) == h;
      return bitmap, Allocated(h % 1024), n;
    }
    bitmap', out, n := AllocateWorker(bitmap, others, reply, expire);
  }

  /** What happens to the shared bitmap: some allocator asks for a bit, or it expires. */
  datatype BitAction = SetBit(who: string, bit: nat, reply: Reply) | Expire

  function BitStep(bitmap: set<nat>, a: BitAction): set<nat> {
    match a
    case SetBit(_, bit, reply) => if reply.FailedLost? then bitmap else bitmap + {bit}
    case Expire => {}
  }

  function BitsAfter(bitmap: set<nat>, acts: seq<BitAction>): set<nat> {
    if acts == [] then bitmap else BitStep(BitsAfter(bitmap, acts[..|acts| - 1]), acts[|acts| - 1])
  }

  /** The i-th action sets this bit, whoever sends it. */
  predicate Sets(acts: seq<BitAction>, i: nat, bit: nat) {
    i < |acts| && acts[i].SetBit? && acts[i].bit == bit && !acts[i].reply.FailedLost?
  }

  /** The i-th action gives its allocator this number. */
  predicate Wins(bitmap: set<nat>, acts: seq<BitAction>, i: nat, bit: nat) {
    Sets(acts, i, bit) && acts[i].reply.Answered? && bit !in BitsAfter(bitmap, acts[..i])
  }

  /** Action j is the first to set the bit after action k, and it is answered. */
  predicate FirstAfter(acts: seq<BitAction>, k: nat, j: nat, bit: nat) {
    Sets(acts, j, bit) && acts[j].reply.Answered? && forall m | k < m < j :: !Sets(acts, m, bit)
  }

  lemma {:induction false} BitStays(bitmap: set<nat>, acts: seq<BitAction>, i: nat, j: nat, bit: nat)
    requires i < j <= |acts| && Sets(acts, i, bit)
    requires forall k | i < k < j :: acts[k].SetBit?
    ensures bit in BitsAfter(bitmap, acts[..j])
    decreases j
  {
    assert acts[..j][..j - 1] == acts[..j - 1];
    if i < j - 1 {
      BitStays(bitmap, acts, i, j - 1, bit);
    }
  }

  lemma {:induction false} BitClear(bitmap: set<nat>, acts: seq<BitAction>, k: nat, j: nat, bit: nat)
    requires k < j <= |acts| && acts[k] == Expire && forall m | k < m < j :: !Sets(acts, m, bit)
    ensures bit !in BitsAfter(bitmap, acts[..j])
    decreases j
  {
    assert acts[..j][..j - 1] == acts[..j - 1] && acts[..j][j - 1] == acts[j - 1];
    if k < j - 1 {
      assert !Sets(acts, j - 1, bit);
      BitClear(bitmap, acts, k, j - 1, bit);
    }
  }

  lemma {:induction false} LastExpiry(acts: seq<BitAction>, i: nat, j: nat) returns (k: nat)
    requires i < j <= |acts|
    ensures i <= k < j && (k > i ==> acts[k] == Expire) && forall m | k < m < j :: acts[m].SetBit?
    decreases j
  {
    if i == j - 1 || acts[j - 1] == Expire {
      k := j - 1;
    } else {
      k := LastExpiry(acts, i, j - 1);
    }
  }

  /** The exact condition under which a number is given out again, whoever allocates: the
      bitmap expires, and the first SETBIT of that bit to arrive afterwards is answered. */
  lemma SharedIff(bitmap: set<nat>, acts: seq<BitAction>, i: nat, bit: nat)
    requires Wins(bitmap, acts, i, bit)
    ensures (exists j: nat :: i < j && Wins(bitmap, acts, j, bit))
            <==> exists k: nat, j: nat :: i < k < j && j < |acts| && acts[k] == Expire && FirstAfter(acts, k, j, bit)
  {
    if j: nat :| i < j && Wins(bitmap, acts, j, bit) {
      var k := LastExpiry(acts, i, j);
      if m :| k <= m < j && Sets(acts, m, bit) {
        BitStays(bitmap, acts, m, j, bit);
      }
      assert FirstAfter(acts, k, j, bit);
    }
    if k: nat, j: nat :| i < k < j && j < |acts| && acts[k] == Expire && FirstAfter(acts, k, j, bit) {
      BitClear(bitmap, acts, k, j, bit);
      assert Wins(bitmap, acts, j, bit);
    }
  }

  /** And it does happen. */
  lemma ExpiryShares(bit: nat)
    ensures var acts := [SetBit("a", bit, Answered), Expire, SetBit("b", bit, Answered)];
            Wins({}, acts, 0, bit) && Wins({}, acts, 2, bit)
  {
    var acts := [SetBit("a", bit, Answered), Expire, SetBit("b", bit, Answered)];
    assert acts[..0] == [];
    BitClear({}, acts, 1, 2, bit);
  }
}
