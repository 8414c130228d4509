/** The guarded cache read: look up, wait for another filler or take the fill mutex, ask
    the source, store, release. Every Redis command is one step; any number of callers,
    expiries and lost commands interleave. */
module CacheFill {
  import opened RedisReply

  /** What the source returns: nothing, a string, or a JSON dict or list. */
  datatype Value<J> = Nothing | Text(s: string) | Json(j: J)

  /** json.dumps and json.loads. `loads` fails on text that is not JSON. */
  datatype Codec<!J> = Codec(dumps: J -> string, loads: string -> Loaded<J>)

  datatype Loaded<J> = Parsed(value: Value<J>) | Scalar | Malformed

  const NULL_MARKER := "__NULL__"

  /** json.dumps of a dict or list starts with a bracket and json.loads reads it back. */
  ghost predicate RoundTrips<J(!new)>(codec: Codec<J>) {
    forall j: J ::
      codec.dumps(j) != "" && codec.dumps(j)[0] in {'{', '['} && codec.loads(codec.dumps(j)) == Parsed(Json(j))
  }

  /** What a call stores for a value. */
  function Stored<J>(codec: Codec<J>, v: Value<J>): string {
    match v
    case Nothing => NULL_MARKER
    case Text(s) => s
    case Json(j) => codec.dumps(j)
  }

  datatype Answer<J> = Answer(value: Value<J>) | OtherScalar

  /** What a call returns for a cache entry. */
  function Read<J>(codec: Codec<J>, raw: string): Answer<J> {
    if raw == NULL_MARKER then Answer(Nothing)
    else match codec.loads(raw)
         case Parsed(v) => Answer(v)
         case Scalar => OtherScalar
         case Malformed => Answer(Text(raw))
  }

  /** A string survives storing exactly when it is neither the null marker nor readable as
      JSON text of something else. */
  predicate Readable<J(==)>(codec: Codec<J>, v: Value<J>) {
    v.Text? ==> v.s != NULL_MARKER && (codec.loads(v.s).Malformed? || codec.loads(v.s) == Parsed(v))
  }

  lemma ReadBackIff<J(!new)>(codec: Codec<J>, v: Value<J>)
    requires RoundTrips(codec)
    ensures Read(codec, Stored(codec, v)) == Answer(v) <==> Readable(codec, v)
    ensures Stored(codec, v) == NULL_MARKER <==> v == Nothing || v == Text(NULL_MARKER)
  {
    if v.Json? {
      assert codec.dumps(v.j)[0] in {'{', '['};
    }
  }

  // ---------- The protocol ----------

  type Caller = string

  /** Where a call stands: `Polling(n)` has n looks left. */
  datatype Pc<J> =
    | Start
    | Locking
    | Polling(left: nat)
    | Asking
    | Storing(v: Value<J>)
    | Unlocking(v: Value<J>)
    | Done(answer: Answer<J>)

  datatype Entry = Absent | Present(raw: string, until: int)

  datatype Config<!J> = Config(codec: Codec<J>, source: Value<J>, ttl: int, nullTtl: int, mutexTtl: int, mutex: bool)

  datatype State<J> = State(entry: Entry, mutex: Entry, callers: map<Caller, Pc<J>>, now: int)

  datatype Action =
    | Tick(d: nat)
    | Evict
    | Enter(c: Caller)
    | Lookup(c: Caller, reply: Reply)
    | TryMutex(c: Caller, reply: Reply)
    | Poll(c: Caller, reply: Reply)
    | AskSource(c: Caller)
    | Store(c: Caller, reply: Reply)
    | Unlock(c: Caller, reply: Reply)

  const POLLS := 5

  predicate Alive(e: Entry, now: int) { e.Present? && now < e.until }

  predicate At<J(==)>(s: State<J>, c: Caller, pc: Pc<J>) { c in s.callers && s.callers[c] == pc }

  predicate Enabled<J>(s: State<J>, a: Action) {
    match a
    case Tick(_) => true
    case Evict => true
    case Enter(c) => c !in s.callers
    case Lookup(c, _) => c in s.callers && s.callers[c].Start?
    case TryMutex(c, _) => c in s.callers && s.callers[c].Locking?
    case Poll(c, _) => c in s.callers && s.callers[c].Polling?
    case AskSource(c) => c in s.callers && s.callers[c].Asking?
    case Store(c, _) => c in s.callers && s.callers[c].Storing?
    case Unlock(c, _) => c in s.callers && s.callers[c].Unlocking?
  }

  function Goto<J>(s: State<J>, c: Caller, pc: Pc<J>): State<J> {
    s.(callers := s.callers[c := pc])
  }

  function Step<J>(k: Config<J>, s: State<J>, a: Action): State<J> {
    if !Enabled(s, a) then s else
    match a
    case Tick(d) => s.(now := s.now + d)
    case Evict => s.(entry := Absent)
    case Enter(c) => Goto(s, c, Start)
    case Lookup(c, reply) =>
      Goto(s, c, if reply.Answered? && Alive(s.entry, s.now) then Done(Read(k.codec, s.entry.raw))
                 else if k.mutex then Locking else Asking)
    case TryMutex(c, reply) =>
      var won := reply.Answered? && !Alive(s.mutex, s.now);
      var m := if reply.FailedLost? || Alive(s.mutex, s.now) then s.mutex else Present("1", s.now + k.mutexTtl);
      Goto(s.(mutex := m), c, if won then Asking else Polling(POLLS))
    case Poll(c, reply) =>
      Goto(s, c, if reply.Answered? && Alive(s.entry, s.now) then Done(Read(k.codec, s.entry.raw))
                 else if s.callers[c].left <= 1 then Asking
                 else Polling(s.callers[c].left - 1))
    case AskSource(c) => Goto(s, c, Storing(k.source))
    case Store(c, reply) =>
      var v := s.callers[c].v;
      var e := if reply.FailedLost? then s.entry
               else Present(Stored(k.codec, v), s.now + if v.Nothing? then k.nullTtl else k.ttl);
      Goto(s.(entry := e), c, if k.mutex then Unlocking(v) else Done(Answer(v)))
    case Unlock(c, reply) =>
      Goto(s.(mutex := if reply.FailedLost? then s.mutex else Absent), c, Done(Answer(s.callers[c].v)))
  }

  /** What is stored lives for the TTL, the null marker for its own; a won mutex for its TTL; and
      whoever unlocks deletes the mutex, his own or not. */
  lemma HowLongThingsLive<J>(k: Config<J>, s: State<J>, c: Caller, reply: Reply)
    requires !reply.FailedLost?
    ensures Enabled(s, Store(c, reply)) ==>
              Step(k, s, Store(c, reply)).entry
              == match s.callers[c].v
                 case Nothing => Present("__NULL__", s.now + k.nullTtl)
                 case Text(raw) => Present(raw, s.now + k.ttl)
                 case Json(j) => Present(k.codec.dumps(j), s.now + k.ttl)
    ensures Enabled(s, TryMutex(c, reply)) ==>
              Step(k, s, TryMutex(c, reply)).mutex
              == match s.mutex
                 case Absent => Present("1", s.now + k.mutexTtl)
                 case Present(_, until) => if s.now < until then s.mutex else Present("1", s.now + k.mutexTtl)
    ensures Enabled(s, Unlock(c, reply)) ==> Step(k, s, Unlock(c, reply)).mutex == Absent
  {
  }

  function Exec<J>(k: Config<J>, s: State<J>, acts: seq<Action>): State<J>
    decreases |acts|
  {
    if acts == [] then s else Exec(k, Step(k, s, acts[0]), acts[1..])
  }

  lemma {:induction false} ExecAppend<J>(k: Config<J>, s: State<J>, a: seq<Action>, b: seq<Action>)
    ensures Exec(k, s, a + b) == Exec(k, Exec(k, s, a), b)
    ensures |b| == 1 ==> Exec(k, s, a + b) == Step(k, Exec(k, s, a), b[0])
    decreases |a|
  {
    if a == [] {
      assert a + b == b;
      if |b| == 1 {
        assert b[1..] == [];
      }
    } else {
      assert (a + b)[1..] == a[1..] + b;
      ExecAppend(k, Step(k, s, a[0]), a[1..], b);
    }
  }

  /** The cache holds nothing, or what some call stored for the source's value. */
  predicate EntryOk<J>(k: Config<J>, e: Entry) {
    e.Present? ==> e.raw == Stored(k.codec, k.source)
  }

  /** What a call carries is the source's value; what it returned is that value, or what
      the entry reads as. */
  predicate PcOk<J(==)>(k: Config<J>, pc: Pc<J>) {
    match pc
    case Storing(v) => v == k.source
    case Unlocking(v) => v == k.source
    case Done(answer) => answer == Answer(k.source) || answer == Read(k.codec, Stored(k.codec, k.source))
    case _ => true
  }

  predicate Inv<J(==)>(k: Config<J>, s: State<J>) {
    EntryOk(k, s.entry) && forall c <- s.callers :: PcOk(k, s.callers[c])
  }

  lemma StepKeepsInv<J>(k: Config<J>, s: State<J>, a: Action)
    requires Inv(k, s)
    ensures Inv(k, Step(k, s, a))
  {
    var s' := Step(k, s, a);
    forall c <- s'.callers ensures PcOk(k, s'.callers[c]) {
      assert c in s.callers ==> PcOk(k, s.callers[c]);
    }
  }

  lemma {:induction false} ExecKeepsInv<J>(k: Config<J>, s: State<J>, acts: seq<Action>)
    requires Inv(k, s)
    ensures Inv(k, Exec(k, s, acts))
    decreases |acts|
  {
    if acts != [] {
      StepKeepsInv(k, s, acts[0]);
      ExecKeepsInv(k, Step(k, s, acts[0]), acts[1..]);
    }
  }

  function Cold<J>(now: int): State<J> { State(Absent, Absent, map[], now) }

  ghost predicate AlwaysRight<J(!new)>(k: Config<J>) {
    forall now: int, acts: seq<Action>, c: Caller ::
      var s := Exec(k, Cold(now), acts);
      c in s.callers && s.callers[c].Done? ==> s.callers[c].answer == Answer(k.source)
  }

  /** Main theorem: for a stable source, every call of every run returns the source's value
      exactly when that value survives storing. Nothing and JSON dicts and lists always do. */
  lemma RightIff<J(!new)>(k: Config<J>)
    requires RoundTrips(k.codec) && k.ttl > 0
    ensures AlwaysRight(k) <==> Readable(k.codec, k.source)
    ensures !k.source.Text? ==> AlwaysRight(k)
  {
    ReadBackIff(k.codec, k.source);
    if Readable(k.codec, k.source) {
      forall now: int, acts: seq<Action>, c: Caller
        ensures var s := Exec(k, Cold(now), acts);
                c in s.callers && s.callers[c].Done? ==> s.callers[c].answer == Answer(k.source)
      {
        ExecKeepsInv(k, Cold(now), acts);
      }
    } else {
      var acts := SecondReader(k);
      var s := Exec(k, Cold(0), acts);
      assert "b" in s.callers && s.callers["b"].Done? && s.callers["b"].answer != Answer(k.source);
    }
  }

  /** One call fills the cache, a second one reads it. */
  lemma SecondReader<J>(k: Config<J>) returns (acts: seq<Action>)
    requires k.source.Text? && k.ttl > 0
    ensures var s := Exec(k, Cold(0), acts); At(s, "b", Done(Read(k.codec, Stored(k.codec, k.source))))
  {
    var s0: State<J> := Cold(0);
    var s1 := Step(k, Step(k, s0, Enter("a")), Lookup("a", Answered));
    var s2 := if k.mutex then Step(k, s1, TryMutex("a", Answered)) else s1;
    var s3 := Step(k, Step(k, s2, AskSource("a")), Store("a", Answered));
    assert s3.entry == Present(Stored(k.codec, k.source), k.ttl);
    var s4 := Step(k, Step(k, s3, Enter("b")), Lookup("b", Answered));
    acts := [];
    assert Exec(k, s0, acts) == s0;
    acts := Then(k, s0, acts, Enter("a"));
    acts := Then(k, s0, acts, Lookup("a", Answered));
    if k.mutex {
      acts := Then(k, s0, acts, TryMutex("a", Answered));
    }
    acts := Then(k, s0, acts, AskSource("a"));
    acts := Then(k, s0, acts, Store("a", Answered));
    acts := Then(k, s0, acts, Enter("b"));
    acts := Then(k, s0, acts, Lookup("b", Answered));
    assert Exec(k, s0, acts) == s4;
  }

  lemma Then<J>(k: Config<J>, s: State<J>, acts: seq<Action>, a: Action) returns (acts': seq<Action>)
    ensures acts' == acts + [a] && Exec(k, s, acts') == Step(k, Exec(k, s, acts), a)
  {
    acts' := acts + [a];
    ExecAppend(k, s, acts, [a]);
  }

  /** The null marker is in the cache only if the source has nothing (or that very string). */
  lemma NullMarkerMeansNothing<J(!new)>(k: Config<J>, now: int, acts: seq<Action>)
    requires RoundTrips(k.codec)
    ensures var s := Exec(k, Cold(now), acts);
            s.entry.Present? && s.entry.raw == NULL_MARKER ==> k.source == Nothing || k.source == Text(NULL_MARKER)
  {
    ExecKeepsInv(k, Cold(now), acts);
    ReadBackIff(k.codec, k.source);
  }

  // ---------- One call, while others go on ----------

  class Server<J> {
    var s: State<J>
    constructor (s: State<J>)
      ensures this.s == s
    {
      this.s := s;
    }
  }

  /** What the world does around the n-th command of a call. */
  datatype World = World(others: nat -> seq<Action>, reply: nat -> Reply)

  predicate ForeignAction(me: Caller, a: Action) {
    a.Tick? || a.Evict? || a.c != me
  }

  ghost predicate Foreign(w: World, me: Caller) {
    forall n: nat, i: nat {:trigger w.others(n)[i]} :: i < |w.others(n)| ==> ForeignAction(me, w.others(n)[i])
  }

  lemma {:induction false} ExecForeign<J>(k: Config<J>, s: State<J>, me: Caller, acts: seq<Action>)
    requires me in s.callers && forall i | 0 <= i < |acts| :: ForeignAction(me, acts[i])
    ensures me in Exec(k, s, acts).callers && Exec(k, s, acts).callers[me] == s.callers[me]
    decreases |acts|
  {
    if acts != [] {
      assert ForeignAction(me, acts[0]);
      ExecForeign(k, Step(k, s, acts[0]), me, acts[1..]);
    }
  }

  /** The caller's own actions in a run. */
  function Mine(acts: seq<Action>, me: Caller): seq<Action> {
    if acts == [] then []
    else (if ForeignAction(me, acts[0]) then [] else [acts[0]]) + Mine(acts[1..], me)
  }

  lemma {:induction false} MineAppend(a: seq<Action>, b: seq<Action>, me: Caller)
    ensures Mine(a + b, me) == Mine(a, me) + Mine(b, me)
    ensures |b| == 1 && !ForeignAction(me, b[0]) ==> Mine(b, me) == b
  {
    if |b| == 1 {
      assert b[1..] == [] && b == [b[0]];
    }
    if a == [] {
      assert a + b == b;
    } else {
      assert (a + b)[1..] == a[1..] + b;
      MineAppend(a[1..], b, me);
    }
  }

  lemma {:induction false} NoneMine(acts: seq<Action>, me: Caller)
    requires forall i | 0 <= i < |acts| :: ForeignAction(me, acts[i])
    ensures Mine(acts, me) == []
  {
    if acts != [] {
      assert ForeignAction(me, acts[0]);
      NoneMine(acts[1..], me);
    }
  }

  /** Looks for the entry and nothing else. */
  predicate Looks(acts: seq<Action>) { forall a <- acts :: a.Poll? }

  /** What a call does: look up; if that finds nothing, take the mutex; if that is taken, look at
      most five more times; if that finds nothing either, ask the source, store, unlock. */
  predicate Shape(mine: seq<Action>, mutex: bool) {
    && mine != [] && mine[0].Lookup?
    && (|mine| == 1
        || (!mutex && |mine| == 3 && Fills(mine[1..], mutex))
        || (mutex && |mine| >= 3 && mine[1].TryMutex?
            && ((|mine| == 5 && Fills(mine[2..], mutex))
                || (|mine| <= 7 && Looks(mine[2..]))
                || (|mine| == 10 && Looks(mine[2..7]) && Fills(mine[7..], mutex)))))
  }

  predicate Fills(acts: seq<Action>, mutex: bool) {
    && |acts| == (if mutex then 3 else 2) && acts[0].AskSource? && acts[1].Store? && (mutex ==> acts[2].Unlock?)
  }

  class Client<!J(==,!new)> {
    const k: Config<J>
    const me: Caller
    const world: World
    var calls: nat

    constructor (k: Config<J>, me: Caller, world: World)
      ensures this.k == k && this.me == me && this.world == world
    {
      this.k := k;
      this.me := me;
      this.world := world;
      this.calls := 0;
    }

    ghost predicate Here(server: Server<J>, pc: Pc<J>)
      reads server
    {
      Foreign(world, me) && At(server.s, me, pc) && Inv(k, server.s)
    }

    /** Others act, then this call's next command. */
    method Do(server: Server<J>, a: Action, ghost pc: Pc<J>) returns (before: State<J>, ghost trace: seq<Action>)
      requires Here(server, pc) && !ForeignAction(me, a)
      modifies server, this
      ensures At(before, me, pc) && server.s == Step(k, before, a) == Exec(k, old(server.s), trace)
      ensures Inv(k, before) && Inv(k, server.s) && Mine(trace, me) == [a]
    {
      trace := world.others(calls);
      NoneMine(trace, me);
      MineAppend(trace, [a], me);
      ExecForeign(k, server.s, me, trace);
      ExecKeepsInv(k, server.s, trace);
      before := Exec(k, server.s, world.others(calls));
      ExecAppend(k, server.s, trace, [a]);
      trace := trace + [a];
      StepKeepsInv(k, before, a);
      server.s := Step(k, before, a);
      calls := calls + 1;
    }

    /** The call as a whole is a run of the protocol that ends with its answer; the answer
        is the source's value whenever that value survives storing. */
    method GetOrSetAdvanced(server: Server<J>) returns (answer: Answer<J>, ghost trace: seq<Action>)
      requires Here(server, Start) && RoundTrips(k.codec)
      modifies server, this
      ensures Here(server, Done(answer)) && server.s == Exec(k, old(server.s), trace)
      ensures Readable(k.codec, k.source) ==> answer == Answer(k.source)
      ensures Shape(Mine(trace, me), k.mutex)
    {
      ReadBackIff(k.codec, k.source);
      var found;
      ghost var t;
      found, answer, trace := LookUp(server);
      if found {
        return;
      }
      if k.mutex {
        found, answer, t := WaitOrLock(server);
        ExecAppend(k, old(server.s), trace, t);
        MineAppend(trace, t, me);
        trace := trace + t;
        if found {
          return;
        }
      }
      answer, t := Fill(server);
      ExecAppend(k, old(server.s), trace, t);
      MineAppend(trace, t, me);
      ghost var before, fill := Mine(trace, me), Mine(t, me);
      assert (before + fill)[|before|..] == fill;
      assert |before| == 7 ==> (before + fill)[2..7] == before[2..];
      trace := trace + t;
    }

    method LookUp(server: Server<J>) returns (found: bool, answer: Answer<J>, ghost trace: seq<Action>)
      requires Here(server, Start)
      modifies server, this
      ensures Here(server, if found then Done(answer) else if k.mutex then Locking else Asking)
      ensures server.s == Exec(k, old(server.s), trace)
      ensures |Mine(trace, me)| == 1 && Mine(trace, me)[0].Lookup?
    {
      var reply := world.reply(calls);
      var before;
      before, trace := Do(server, Lookup(me, reply), Start);
      found := reply.Answered? && Alive(before.entry, before.now);
      answer := if found then Read(k.codec, before.entry.raw) else OtherScalar;
    }

    /** Take the fill mutex, or look a few more times whether somebody else has filled. */
    method WaitOrLock(server: Server<J>) returns (found: bool, answer: Answer<J>, ghost trace: seq<Action>)
      requires Here(server, Locking)
      modifies server, this
      ensures Here(server, if found then Done(answer) else Asking)
      ensures server.s == Exec(k, old(server.s), trace)
      ensures var mine := Mine(trace, me);
              && mine != [] && mine[0].TryMutex? && Looks(mine[1..])
              && if found then 2 <= |mine| <= 6 else |mine| == 1 || |mine| == 6
    {
      var reply := world.reply(calls);
      var before;
      before, trace := Do(server, TryMutex(me, reply), Locking);
      var locked := reply.Answered? && !Alive(before.mutex, before.now);
      if locked {
        return false, OtherScalar, trace;
      }
      ghost var t;
      found, answer, t := LookAgain(server);
      ExecAppend(k, old(server.s), trace, t);
      MineAppend(trace, t, me);
      assert (Mine(trace, me) + Mine(t, me))[1..] == Mine(t, me);
      trace := trace + t;
    }

    method LookAgain(server: Server<J>) returns (found: bool, answer: Answer<J>, ghost trace: seq<Action>)
      requires Here(server, Polling(POLLS))
      modifies server, this
      ensures Here(server, if found then Done(answer) else Asking)
      ensures server.s == Exec(k, old(server.s), trace)
      ensures Looks(Mine(trace, me)) && if found then 1 <= |Mine(trace, me)| <= 5 else |Mine(trace, me)| == 5
    {
      trace := [];
      answer := OtherScalar;
      for i := 0 to POLLS
        invariant Here(server, if i < POLLS then Polling(POLLS - i) else Asking)
        invariant server.s == Exec(k, old(server.s), trace)
        invariant |Mine(trace, me)| == i && Looks(Mine(trace, me))
      {
        var reply := world.reply(calls);
        var before;
        ghost var t;
        before, t := Do(server, Poll(me, reply), Polling(POLLS - i));
        ExecAppend(k, old(server.s), trace, t);
        MineAppend(trace, t, me);
        trace := trace + t;
        if reply.Answered? && Alive(before.entry, before.now) {
          return true, Read(k.codec, before.entry.raw), trace;
        }
      }
      found := false;
    }

    /** Ask the source, store what it says, give the mutex back. */
    method Fill(server: Server<J>) returns (answer: Answer<J>, ghost trace: seq<Action>)
      requires Here(server, Asking)
      modifies server, this
      ensures Here(server, Done(answer)) && answer == Answer(k.source)
      ensures server.s == Exec(k, old(server.s), trace) && Fills(Mine(trace, me), k.mutex)
    {
      var before;
      ghost var t;
      before, trace := Do(server, AskSource(me), Asking);
      var result := k.source;
      before, t := Do(server, Store(me, world.reply(calls)), Storing(result));
      ExecAppend(k, old(server.s), trace, t);
      MineAppend(trace, t, me);
      trace := trace + t;
      if k.mutex {
        before, t := Do(server, Unlock(me, world.reply(calls)), Unlocking(result));
        ExecAppend(k, old(server.s), trace, t);
        MineAppend(trace, t, me);
        trace := trace + t;
      }
      answer := Answer(result);
    }
  }
}
