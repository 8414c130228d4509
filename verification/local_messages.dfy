/** The local message table: a hash per message, a list of pending ids, a list of dead ones;
    every failed send counts a retry. Any number of processors work on the same lists while
    messages are created and hashes expire. Every command is one atomic step and may fail,
    carried out or not. */
module LocalMessages {
  import opened RedisReply

  type Id = string

  datatype Status = Pending | Sent | Failed

  datatype Record = Record(status: Status, retryCount: nat, maxRetry: int)

  /** How a call of the sender ends; an exception counts as a refusal. `Killed` is an exit
      that "except Exception" does not catch. */
  datatype Verdict = Accepted | Refused | Killed

  /** Where a processor stands with the message in its hands; `r` is the hash as it read it. */
  datatype Hand =
    | Free
    | Popped(id: Id)
    | Asking(id: Id, r: Record)
    | Marking(id: Id, r: Record, accepted: bool)
    | Placing(id: Id, again: bool)

  /** The two lists, the hashes and the processors. `created` holds all ids in use; `asked` logs
      every id the sender was called with, `sent` those marked as sent. */
  datatype State = State(pending: seq<Id>, dead: seq<Id>, hashes: map<Id, Record>, hands: seq<Hand>,
                         created: set<Id>, asked: seq<Id>, sent: seq<Id>)

  datatype Action =
    | Create(id: Id, maxRetry: int, write: Reply, expire: Reply, push: Reply)
    | Expire(id: Id)
    | Pop(w: nat, reply: Reply)
    | Read(w: nat, reply: Reply)
    | Send(w: nat, verdict: Verdict)
    | Mark(w: nat, reply: Reply)
    | Place(w: nat, reply: Reply)

  predicate By(a: Action, w: nat) { !a.Create? && !a.Expire? && a.w == w }

  /** The processor works with what it read of this message's hash. */
  predicate Uses(h: Hand, id: Id) { !h.Free? && !h.Popped? && h.id == id }

  predicate Enabled(s: State, a: Action) {
    match a
    case Create(id, _, _, _, _) => id !in s.created
    case Expire(id) => forall h <- s.hands :: !Uses(h, id)
    case Pop(w, _) => w < |s.hands| && s.hands[w].Free?
    case Read(w, _) => w < |s.hands| && s.hands[w].Popped?
    case Send(w, _) => w < |s.hands| && s.hands[w].Asking?
    case Mark(w, _) => w < |s.hands| && s.hands[w].Marking?
    case Place(w, _) => w < |s.hands| && s.hands[w].Placing?
  }

  predicate Retries(r: Record) { r.retryCount + 1 <= r.maxRetry }

  /** The one field of the hash that a verdict changes. */
  function Marked(now: Record, read: Record, accepted: bool): Record {
    if accepted then now.(status := Sent)
    else if Retries(read) then now.(retryCount := read.retryCount + 1)
    else now.(status := Failed)
  }

  function Written(hashes: map<Id, Record>, h: Hand): map<Id, Record>
    requires h.Marking?
  {
    if h.id in hashes then hashes[h.id := Marked(hashes[h.id], h.r, h.accepted)] else hashes
  }

  /** Hash, expiry and push go to an id nobody else knows yet; the first failure ends it. */
  predicate Enlists(a: Action) {
    a.Create? && a.write.Answered? && a.expire.Answered? && !a.push.FailedLost?
  }

  function Step(s: State, a: Action): State {
    if !Enabled(s, a) then s else
    match a
    case Create(id, maxRetry, write, _, _) =>
      s.(created := s.created + {id},
         hashes := if write.FailedLost? then s.hashes else s.hashes[id := Record(Pending, 0, maxRetry)],
         pending := if Enlists(a) then s.pending + [id] else s.pending)
    case Expire(id) => s.(hashes := s.hashes - {id})
    case Pop(w, reply) =>
      if s.pending == [] || reply.FailedLost? then s
      else s.(pending := s.pending[1..],
              hands := if reply.Answered? then s.hands[w := Popped(s.pending[0])] else s.hands)
    case Read(w, reply) =>
      var id := s.hands[w].id;
      s.(hands := s.hands[w := if reply.Answered? && id in s.hashes then Asking(id, s.hashes[id]) else Free])
    case Send(w, verdict) =>
      var id, r := s.hands[w].id, s.hands[w].r;
      s.(asked := s.asked + [id],
         hands := s.hands[w := if verdict.Killed? then Free else Marking(id, r, verdict.Accepted?)])
    case Mark(w, reply) =>
      var h := s.hands[w];
      s.(hashes := if reply.FailedLost? then s.hashes else Written(s.hashes, h),
         sent := if h.accepted && !reply.FailedLost? then s.sent + [h.id] else s.sent,
         hands := s.hands[w := if h.accepted || !reply.Answered? then Free else Placing(h.id, Retries(h.r))])
    case Place(w, reply) =>
      var id, again := s.hands[w].id, s.hands[w].again;
      s.(pending := if again && !reply.FailedLost? then s.pending + [id] else s.pending,
         dead := if !again && !reply.FailedLost? then s.dead + [id] else s.dead,
         hands := s.hands[w := Free])
  }

  function Exec(s: State, acts: seq<Action>): State
    decreases |acts|
  {
    if acts == [] then s else Exec(Step(s, acts[0]), acts[1..])
  }

  lemma {:induction false} ExecAppend(s: State, a: seq<Action>, b: seq<Action>)
    ensures Exec(s, a + b) == Exec(Exec(s, a), b)
    decreases |a|
  {
    if a == [] {
      assert a + b == b;
    } else {
      assert (a + b)[1..] == a[1..] + b;
      ExecAppend(Step(s, a[0]), a[1..], b);
    }
  }

  // ---------- Where a message is ----------

  function One(b: bool): nat { if b then 1 else 0 }

  function Times(ids: seq<Id>, id: Id): nat { multiset(ids)[id] }

  predicate Has(h: Hand, id: Id) { !h.Free? && h.id == id }

  function InHands(hands: seq<Hand>, id: Id): nat {
    if hands == [] then 0 else InHands(hands[..|hands| - 1], id) + One(Has(hands[|hands| - 1], id))
  }

  /** In how many places the message is: pending, sent, dead, or in a processor's hands. */
  function Places(s: State, id: Id): nat {
    Times(s.pending, id) + Times(s.sent, id) + Times(s.dead, id) + InHands(s.hands, id)
  }

  lemma {:induction false} HandChanges(hands: seq<Hand>, w: nat, h: Hand, id: Id)
    requires w < |hands|
    ensures InHands(hands[w := h], id) + One(Has(hands[w], id)) == InHands(hands, id) + One(Has(h, id))
    decreases |hands|
  {
    var n := |hands| - 1;
    var hands' := hands[w := h];
    if w < n {
      HandChanges(hands[..n], w, h, id);
      assert hands'[..n] == hands[..n][w := h];
    } else {
      assert hands'[..n] == hands[..n];
    }
  }

  lemma {:induction false} InHandsIff(hands: seq<Hand>, id: Id)
    ensures InHands(hands, id) > 0 <==> exists w :: 0 <= w < |hands| && Has(hands[w], id)
  {
    if hands != [] {
      var n := |hands| - 1;
      InHandsIff(hands[..n], id);
      if w :| 0 <= w < |hands| && Has(hands[w], id) {
        if w < n {
          assert Has(hands[..n][w], id);
        }
      }
      if w :| 0 <= w < n && Has(hands[..n][w], id) {
        assert Has(hands[w], id);
      }
    }
  }

  lemma PushTimes(ids: seq<Id>, id: Id, x: Id)
    ensures Times(ids + [id], x) == Times(ids, x) + One(x == id)
    ensures ids != [] ==> Times(ids, x) == One(ids[0] == x) + Times(ids[1..], x)
  {
    if ids != [] {
      assert ids == [ids[0]] + ids[1..];
    }
  }

  /** Retries a message is granted. */
  function Granted(r: Record): nat { if r.maxRetry > 0 then r.maxRetry else 0 }

  // ---------- Invariant ----------

  /** What a processor holds agrees with the hash, and with how often the sender was asked. */
  predicate HandOk(s: State, h: Hand) {
    match h
    case Free => true
    case Popped(id) =>
      id in s.hashes ==> s.hashes[id].status.Pending? && Times(s.asked, id) == s.hashes[id].retryCount
    case Asking(id, r) =>
      id in s.hashes && s.hashes[id] == r && r.status.Pending? && Times(s.asked, id) == r.retryCount
    case Marking(id, r, _) =>
      id in s.hashes && s.hashes[id] == r && r.status.Pending? && Times(s.asked, id) == r.retryCount + 1
    case Placing(id, again) =>
      id in s.hashes && var r := s.hashes[id];
      if again then r.status.Pending? && Times(s.asked, id) == r.retryCount
      else r.status.Failed? && Times(s.asked, id) == r.retryCount + 1 == Granted(r) + 1
  }

  /** Each list holds what the status says, tried as often as the retry count says. */
  predicate ListsOk(s: State, id: Id)
    requires id in s.hashes
  {
    var r, asked := s.hashes[id], Times(s.asked, id);
    && (Times(s.pending, id) > 0 ==> r.status.Pending? && asked == r.retryCount)
    && (Times(s.sent, id) > 0 ==> r.status.Sent? && asked == r.retryCount + 1)
    && (Times(s.dead, id) > 0 ==> r.status.Failed? && asked == r.retryCount + 1 == Granted(r) + 1)
  }

  /** A message is in at most one place; in none it is lost. */
  predicate RecordOk(s: State, id: Id)
    requires id in s.hashes
  {
    var r := s.hashes[id];
    && r.retryCount <= Granted(r) && ListsOk(s, id) && Places(s, id) <= 1
    && (Places(s, id) == 0 ==> !r.status.Sent? && r.retryCount <= Times(s.asked, id) <= r.retryCount + 1)
  }

  /** An id not in use is nowhere. */
  predicate UnusedOk(s: State, id: Id) {
    id !in s.created ==> id !in s.hashes && Places(s, id) == 0 && Times(s.asked, id) == 0
  }

  ghost predicate Inv(s: State) {
    && (forall id <- s.hashes :: RecordOk(s, id))
    && (forall w | 0 <= w < |s.hands| :: HandOk(s, s.hands[w]))
    && (forall id :: UnusedOk(s, id))
  }

  /** The message an action is about. */
  predicate About(s: State, a: Action, id: Id) {
    && Enabled(s, a)
    && match a
       case Create(x, _, _, _, _) => x == id
       case Expire(x) => x == id
       case Pop(_, reply) => s.pending != [] && s.pending[0] == id && !reply.FailedLost?
       case Read(w, _) => s.hands[w].id == id
       case Send(w, _) => s.hands[w].id == id
       case Mark(w, _) => s.hands[w].id == id
       case Place(w, _) => s.hands[w].id == id
  }

  /** What of a state is about one message. */
  predicate SameFor(s: State, s': State, id: Id) {
    && Times(s'.pending, id) == Times(s.pending, id) && Times(s'.sent, id) == Times(s.sent, id)
    && Times(s'.dead, id) == Times(s.dead, id) && Times(s'.asked, id) == Times(s.asked, id)
    && InHands(s'.hands, id) == InHands(s.hands, id)
    && (id in s'.hashes <==> id in s.hashes) && (id in s.hashes ==> s'.hashes[id] == s.hashes[id])
    && (id in s'.created <==> id in s.created)
  }

  /** A step leaves other messages where they are. */
  lemma OthersStay(s: State, a: Action, id: Id)
    requires !About(s, a, id)
    ensures SameFor(s, Step(s, a), id)
  {
    if Enabled(s, a) && !a.Expire? {
      if a.Create? {
        PushTimes(s.pending, a.id, id);
      } else {
        OtherLists(s, a, id);
        OtherHands(s, a, id);
      }
    }
  }

  lemma OtherLists(s: State, a: Action, id: Id)
    requires Enabled(s, a) && !a.Create? && !a.Expire? && !About(s, a, id)
    ensures var s' := Step(s, a);
            && Times(s'.pending, id) == Times(s.pending, id) && Times(s'.sent, id) == Times(s.sent, id)
            && Times(s'.dead, id) == Times(s.dead, id) && Times(s'.asked, id) == Times(s.asked, id)
  {
    if a.Pop? {
      PushTimes(s.pending, id, id);
    } else {
      OtherPushes(s, s.hands[a.w].id, id);
    }
  }

  lemma OtherPushes(s: State, x: Id, id: Id)
    requires x != id
    ensures Times(s.pending + [x], id) == Times(s.pending, id) && Times(s.sent + [x], id) == Times(s.sent, id)
    ensures Times(s.dead + [x], id) == Times(s.dead, id) && Times(s.asked + [x], id) == Times(s.asked, id)
  {
    PushTimes(s.pending, x, id);
    PushTimes(s.sent, x, id);
    PushTimes(s.dead, x, id);
    PushTimes(s.asked, x, id);
  }

  lemma OtherHands(s: State, a: Action, id: Id)
    requires Enabled(s, a) && !a.Create? && !a.Expire? && !About(s, a, id)
    ensures InHands(Step(s, a).hands, id) == InHands(s.hands, id)
  {
    var h := Step(s, a).hands[a.w];
    HandChanges(s.hands, a.w, h, id);
    assert Step(s, a).hands == s.hands[a.w := h];
  }

  /** The step leaves the message it is about in no place: the pop or the read of the hash is
      not answered, the sender is killed, or what would have placed it fails. */
  predicate Loses(s: State, a: Action)
    requires Enabled(s, a)
  {
    match a
    case Create(_, _, _, _, _) => !Enlists(a)
    case Expire(_) => false
    case Pop(_, reply) => reply.FailedApplied?
    case Read(_, reply) => !reply.Answered?
    case Send(_, verdict) => verdict.Killed?
    case Mark(w, reply) => if s.hands[w].accepted then reply.FailedLost? else !reply.Answered?
    case Place(_, reply) => reply.FailedLost?
  }

  /** The message has a hash but is in no place: nobody will send it or look at it again. */
  predicate Missing(s: State, id: Id) {
    id in s.hashes && Places(s, id) == 0
  }

  /** No second processor has the message. */
  lemma OneHand(s: State, w: nat, v: nat, id: Id)
    requires w < |s.hands| && v < |s.hands| && w != v && Has(s.hands[w], id) && InHands(s.hands, id) <= 1
    ensures !Has(s.hands[v], id)
  {
    HandChanges(s.hands, w, Free, id);
    InHandsIff(s.hands[w := Free], id);
    assert s.hands[w := Free][v] == s.hands[v];
  }

  /** A processor's step, as far as its own message is concerned. */
  lemma OwnLists(s: State, a: Action, id: Id)
    requires About(s, a, id) && !a.Create? && !a.Expire?
    ensures var s' := Step(s, a);
            && Times(s'.pending, id) == Times(s.pending, id) - One(a.Pop?)
                                        + One(a.Place? && s.hands[a.w].again && !a.reply.FailedLost?)
            && Times(s'.dead, id) == Times(s.dead, id)
                                     + One(a.Place? && !s.hands[a.w].again && !a.reply.FailedLost?)
            && Times(s'.sent, id) == Times(s.sent, id)
                                     + One(a.Mark? && s.hands[a.w].accepted && !a.reply.FailedLost?)
            && Times(s'.asked, id) == Times(s.asked, id) + One(a.Send?)
  {
    PushTimes(s.pending, id, id);
    PushTimes(s.sent, id, id);
    PushTimes(s.dead, id, id);
    PushTimes(s.asked, id, id);
  }

  lemma OwnHands(s: State, a: Action, id: Id)
    requires About(s, a, id) && !a.Create? && !a.Expire?
    ensures var s' := Step(s, a);
            && a.w < |s.hands| == |s'.hands|
            && InHands(s'.hands, id) + One(!a.Pop?) == InHands(s.hands, id) + One(Has(s'.hands[a.w], id))
            && (!a.Pop? ==> InHands(s.hands, id) >= 1)
            && (forall v | 0 <= v < |s.hands| && v != a.w :: s'.hands[v] == s.hands[v])
  {
    var h := Step(s, a).hands[a.w];
    HandChanges(s.hands, a.w, Free, id);
    HandChanges(s.hands, a.w, h, id);
    assert Step(s, a).hands == s.hands[a.w := h];
  }

  predicate OwnKept(s: State, a: Action, id: Id)
    requires Enabled(s, a) && !a.Create? && !a.Expire?
  {
    var s' := Step(s, a);
    && id in s'.hashes && RecordOk(s', id) && a.w < |s'.hands| && HandOk(s', s'.hands[a.w])
    && (Missing(s', id) <==> Loses(s, a)) && !Missing(s, id)
  }

  lemma OwnPop(s: State, a: Action, id: Id)
    requires a.Pop? && About(s, a, id) && id in s.hashes && RecordOk(s, id) && HandOk(s, s.hands[a.w])
    ensures OwnKept(s, a, id)
  {
    OwnLists(s, a, id);
    OwnHands(s, a, id);
  }

  lemma OwnRead(s: State, a: Action, id: Id)
    requires a.Read? && About(s, a, id) && id in s.hashes && RecordOk(s, id) && HandOk(s, s.hands[a.w])
    ensures OwnKept(s, a, id)
  {
    OwnLists(s, a, id);
    OwnHands(s, a, id);
  }

  lemma OwnSend(s: State, a: Action, id: Id)
    requires a.Send? && About(s, a, id) && id in s.hashes && RecordOk(s, id) && HandOk(s, s.hands[a.w])
    ensures OwnKept(s, a, id)
  {
    OwnLists(s, a, id);
    OwnHands(s, a, id);
  }

  lemma OwnMark(s: State, a: Action, id: Id)
    requires a.Mark? && About(s, a, id) && id in s.hashes && RecordOk(s, id) && HandOk(s, s.hands[a.w])
    ensures OwnKept(s, a, id)
  {
    OwnLists(s, a, id);
    OwnHands(s, a, id);
  }

  lemma OwnPlace(s: State, a: Action, id: Id)
    requires a.Place? && About(s, a, id) && id in s.hashes && RecordOk(s, id) && HandOk(s, s.hands[a.w])
    ensures OwnKept(s, a, id)
  {
    OwnLists(s, a, id);
    OwnHands(s, a, id);
  }

  /** A step keeps its message's record in order, and the message exactly unless it loses it. */
  lemma OwnStep(s: State, a: Action, id: Id)
    requires About(s, a, id) && !a.Create? && !a.Expire?
    requires id in s.hashes && RecordOk(s, id) && HandOk(s, s.hands[a.w])
    ensures OwnKept(s, a, id)
  {
    match a
    case Pop(_, _) => OwnPop(s, a, id);
    case Read(_, _) => OwnRead(s, a, id);
    case Send(_, _) => OwnSend(s, a, id);
    case Mark(_, _) => OwnMark(s, a, id);
    case Place(_, _) => OwnPlace(s, a, id);
  }

  /** Only messages in use are about, other than one being created. */
  lemma AboutUsed(s: State, a: Action, id: Id)
    requires About(s, a, id) && UnusedOk(s, id) && !a.Create? && !a.Expire?
    ensures id in s.created
  {
    if !a.Pop? {
      assert Has(s.hands[a.w], id);
      InHandsIff(s.hands, id);
    }
  }

  /** The other processors hold what they held, and it is still in order. */
  lemma OtherHandOk(s: State, a: Action, v: nat)
    requires Inv(s) && v < |s.hands| && Enabled(s, a) && !By(a, v)
    ensures v < |Step(s, a).hands| && Step(s, a).hands[v] == s.hands[v] && HandOk(Step(s, a), s.hands[v])
  {
    var h, s' := s.hands[v], Step(s, a);
    assert s'.hands[v] == h && HandOk(s, h);
    if !h.Free? {
      var id := h.id;
      assert UnusedOk(s, id) && Has(s.hands[v], id);
      InHandsIff(s.hands, id);
      if !About(s, a, id) {
        OthersStay(s, a, id);
      } else if id in s.hashes {
        assert RecordOk(s, id);
        assert h in s.hands;
        if !a.Expire? && !a.Pop? {
          OneHand(s, v, a.w, id);
        } else if a.Pop? {
          PushTimes(s.pending, id, id);
        }
      }
    }
  }

  /** So is what the acting processor holds now. */
  lemma OwnHandOk(s: State, a: Action)
    requires Inv(s) && Enabled(s, a) && !a.Create? && !a.Expire?
    ensures a.w < |Step(s, a).hands| && HandOk(Step(s, a), Step(s, a).hands[a.w])
  {
    assert HandOk(s, s.hands[a.w]);
    var id := if a.Pop? then (if s.pending != [] then s.pending[0] else "") else s.hands[a.w].id;
    if About(s, a, id) && id in s.hashes {
      assert RecordOk(s, id);
      OwnStep(s, a, id);
    }
  }

  lemma RecordStays(s: State, a: Action, id: Id)
    requires Inv(s) && id in Step(s, a).hashes
    ensures RecordOk(Step(s, a), id)
    ensures Missing(Step(s, a), id) <==> Missing(s, id) || (About(s, a, id) && Loses(s, a))
  {
    if !About(s, a, id) {
      OthersStay(s, a, id);
      assert RecordOk(s, id);
    } else if a.Create? {
      assert UnusedOk(s, id);
      PushTimes(s.pending, id, id);
    } else {
      assert RecordOk(s, id) && HandOk(s, s.hands[a.w]);
      OwnStep(s, a, id);
    }
  }

  lemma UnusedStays(s: State, a: Action, id: Id)
    requires Inv(s)
    ensures UnusedOk(Step(s, a), id)
  {
    assert UnusedOk(s, id);
    if !About(s, a, id) {
      OthersStay(s, a, id);
    } else if !a.Create? && !a.Expire? {
      AboutUsed(s, a, id);
    }
  }

  /** Whatever fails, a step of any processor keeps: every message is in at most one place, the
      one its status says, and has been tried as often as its retry count says. */
  lemma StepKeepsInv(s: State, a: Action)
    requires Inv(s)
    ensures Inv(Step(s, a)) && |Step(s, a).hands| == |s.hands|
  {
    var s' := Step(s, a);
    if Enabled(s, a) {
      forall id <- s'.hashes ensures RecordOk(s', id) {
        RecordStays(s, a, id);
      }
      forall v | 0 <= v < |s'.hands| ensures HandOk(s', s'.hands[v]) {
        if By(a, v) {
          OwnHandOk(s, a);
        } else {
          OtherHandOk(s, a, v);
        }
      }
      forall id ensures UnusedOk(s', id) {
        UnusedStays(s, a, id);
      }
    }
  }

  lemma {:induction false} ExecKeepsInv(s: State, acts: seq<Action>)
    requires Inv(s)
    ensures Inv(Exec(s, acts)) && |Exec(s, acts).hands| == |s.hands|
    decreases |acts|
  {
    if acts != [] {
      StepKeepsInv(s, acts[0]);
      ExecKeepsInv(Step(s, acts[0]), acts[1..]);
    }
  }

  function Empty(processors: nat): State {
    State([], [], map[], seq(processors, i => Free), {}, [], [])
  }

  lemma EmptyInv(processors: nat)
    ensures Inv(Empty(processors))
  {
    var s := Empty(processors);
    forall id ensures UnusedOk(s, id) {
      InHandsIff(s.hands, id);
    }
  }

  // ---------- Main theorems ----------

  /** In every run a message whose hash lives has been tried at most max(max_retry, 0) + 1
      times, exactly that often once it is dead; it is in at most one place, and if it is in a
      list it is in the one its status says. */
  lemma TriedAtMost(processors: nat, acts: seq<Action>, id: Id)
    ensures var s := Exec(Empty(processors), acts);
            id in s.hashes ==>
              && var most := 1 + if s.hashes[id].maxRetry > 0 then s.hashes[id].maxRetry else 0;
              && multiset(s.asked)[id] <= most && Places(s, id) <= 1
              && (id in s.dead ==> multiset(s.asked)[id] == most && s.hashes[id].status.Failed?)
              && (id in s.sent <==> s.hashes[id].status.Sent?)
              && (id in s.pending ==> s.hashes[id].status.Pending?)
  {
    var s := Exec(Empty(processors), acts);
    EmptyInv(processors);
    ExecKeepsInv(Empty(processors), acts);
    if id in s.hashes {
      assert RecordOk(s, id);
      if InHands(s.hands, id) > 0 {
        HeldOk(s, id);
      }
    }
  }

  /** A message in somebody's hands is not marked as sent, and was not tried too often. */
  lemma HeldOk(s: State, id: Id)
    requires Inv(s) && id in s.hashes && InHands(s.hands, id) > 0
    ensures !s.hashes[id].status.Sent? && Times(s.asked, id) <= s.hashes[id].retryCount + 1
  {
    InHandsIff(s.hands, id);
    var w :| 0 <= w < |s.hands| && Has(s.hands[w], id);
    assert HandOk(s, s.hands[w]);
  }

  /** Some step of the run loses this message. */
  predicate LosesIn(s: State, acts: seq<Action>, id: Id)
    decreases |acts|
  {
    acts != [] && ((About(s, acts[0], id) && Loses(s, acts[0])) || LosesIn(Step(s, acts[0]), acts[1..], id))
  }

  /** An id whose hash is gone never gets one again. */
  lemma {:induction false} GoneForGood(s: State, acts: seq<Action>, id: Id)
    requires id in s.created && id !in s.hashes
    ensures id !in Exec(s, acts).hashes
    decreases |acts|
  {
    if acts != [] {
      GoneForGood(Step(s, acts[0]), acts[1..], id);
    }
  }

  /** Over every run, for every message whose hash lives at the end: it is in no place if and
      only if it was in none before or some step lost it. */
  lemma {:induction false} MissingIff(s: State, acts: seq<Action>, id: Id)
    requires Inv(s) && id in Exec(s, acts).hashes
    ensures Missing(Exec(s, acts), id) <==> Missing(s, id) || LosesIn(s, acts, id)
    decreases |acts|
  {
    if acts != [] {
      var s1 := Step(s, acts[0]);
      StepKeepsInv(s, acts[0]);
      MissingIff(s1, acts[1..], id);
      if id in s1.hashes {
        RecordStays(s, acts[0], id);
      } else {
        NotYetCreated(s, acts, id);
      }
    }
  }

  lemma NotYetCreated(s: State, acts: seq<Action>, id: Id)
    requires Inv(s) && acts != [] && id in Exec(s, acts).hashes && id !in Step(s, acts[0]).hashes
    ensures id !in s.hashes && !(About(s, acts[0], id) && Loses(s, acts[0]))
  {
    var s1 := Step(s, acts[0]);
    if id in s1.created {
      GoneForGood(s1, acts[1..], id);
    } else {
      assert UnusedOk(s, id);
      if About(s, acts[0], id) && !acts[0].Create? && !acts[0].Expire? {
        AboutUsed(s, acts[0], id);
      }
    }
  }

  /** The command is answered, the sender not killed. */
  predicate Calm(a: Action) {
    match a
    case Create(_, _, write, expire, push) => write.Answered? && expire.Answered? && push.Answered?
    case Expire(_) => true
    case Send(_, verdict) => !verdict.Killed?
    case _ => a.reply.Answered?
  }

  lemma {:induction false} CalmLosesNone(s: State, acts: seq<Action>, id: Id)
    requires forall a <- acts :: Calm(a)
    ensures !LosesIn(s, acts, id)
    decreases |acts|
  {
    if acts != [] {
      assert Calm(acts[0]);
      CalmLosesNone(Step(s, acts[0]), acts[1..], id);
    }
  }

  /** If every command is answered and the sender is never killed, every message whose hash
      lives is pending, sent, dead or in exactly one processor's hands, for ever. */
  lemma NothingForgotten(processors: nat, acts: seq<Action>, id: Id)
    requires forall a <- acts :: Calm(a)
    ensures var s := Exec(Empty(processors), acts); id in s.hashes ==> Places(s, id) == 1
  {
    var s0 := Empty(processors);
    EmptyInv(processors);
    ExecKeepsInv(s0, acts);
    CalmLosesNone(s0, acts, id);
    if id in Exec(s0, acts).hashes {
      MissingIff(s0, acts, id);
      assert RecordOk(Exec(s0, acts), id);
    }
  }

  /** One processor with this in its hands. */
  function Waiting(id: Id, h: Hand, asked: seq<Id>): State {
    State(if h.Free? then [id] else [], [], map[id := Record(Pending, 0, 3)], [h], {id}, asked, [])
  }

  lemma LetsGo(id: Id, h: Hand, asked: seq<Id>, a: Action)
    requires var s, s' := Waiting(id, h, asked), Step(Waiting(id, h, asked), a);
             && By(a, 0) && id in s'.hashes && s'.pending == [] && s'.dead == [] && s'.sent == []
             && s'.hands == [Free]
    ensures Missing(Step(Waiting(id, h, asked), a), id)
  {
    NobodyHas(id);
  }

  lemma NobodyHas(id: Id)
    ensures InHands([Free], id) == 0
  {
    assert [Free][..0] == [];
  }

  /** Each kind of failure loses a message: a creation whose push fails, a pop or a read without
      answer, a killed sender, a mark or a push that does not arrive. */
  lemma FailuresLose(id: Id)
    ensures Missing(Step(Empty(1), Create(id, 3, Answered, Answered, FailedLost)), id)
    ensures Missing(Step(Waiting(id, Free, []), Pop(0, FailedApplied)), id)
    ensures Missing(Step(Waiting(id, Popped(id), []), Read(0, FailedLost)), id)
    ensures Missing(Step(Waiting(id, Asking(id, Record(Pending, 0, 3)), []), Send(0, Killed)), id)
    ensures Missing(Step(Waiting(id, Marking(id, Record(Pending, 0, 3), true), [id]), Mark(0, FailedLost)), id)
    ensures Missing(Step(Waiting(id, Placing(id, true), []), Place(0, FailedLost)), id)
  {
    assert [id][1..] == [];
    assert Empty(1).hands == [Free];
    NobodyHas(id);
    LetsGo(id, Free, [], Pop(0, FailedApplied));
    LetsGo(id, Popped(id), [], Read(0, FailedLost));
    LetsGo(id, Asking(id, Record(Pending, 0, 3)), [], Send(0, Killed));
    LetsGo(id, Marking(id, Record(Pending, 0, 3), true), [id], Mark(0, FailedLost));
    LetsGo(id, Placing(id, true), [], Place(0, FailedLost));
  }

  /** A pop takes the first id; an accepted message is marked as sent; a refused one counts one
      more retry and goes to the end of the pending list as long as that is within the limit,
      and is marked as failed and goes to the dead ones otherwise. */
  lemma WhereMessagesGo(s: State, w: nat, id: Id, r: Record)
    requires w < |s.hands|
    ensures s.hands[w].Free? && s.pending != [] ==>
              Step(s, Pop(w, Answered)) == s.(pending := s.pending[1..], hands := s.hands[w := Popped(s.pending[0])])
    ensures s.hands[w] == Popped(id) ==>
              Step(s, Read(w, Answered))
              == s.(hands := s.hands[w := if id in s.hashes then Asking(id, s.hashes[id]) else Free])
    ensures s.hands[w] == Asking(id, r) ==>
              && Step(s, Send(w, Accepted)) == s.(asked := s.asked + [id], hands := s.hands[w := Marking(id, r, true)])
              && Step(s, Send(w, Refused)) == s.(asked := s.asked + [id], hands := s.hands[w := Marking(id, r, false)])
    ensures s.hands[w] == Marking(id, r, true) && id in s.hashes ==>
              Step(s, Mark(w, Answered)) == s.(hashes := s.hashes[id := s.hashes[id].(status := Sent)],
                                               sent := s.sent + [id], hands := s.hands[w := Free])
    ensures s.hands[w] == Marking(id, r, false) && id in s.hashes && s.hashes[id] == r ==>
              Step(s, Mark(w, Answered))
              == if r.retryCount + 1 <= r.maxRetry
                 then s.(hashes := s.hashes[id := r.(retryCount := r.retryCount + 1)],
                         hands := s.hands[w := Placing(id, true)])
                 else s.(hashes := s.hashes[id := r.(status := Failed)], hands := s.hands[w := Placing(id, false)])
    ensures s.hands[w] == Placing(id, true) ==>
              Step(s, Place(w, Answered)) == s.(pending := s.pending + [id], hands := s.hands[w := Free])
    ensures s.hands[w] == Placing(id, false) ==>
              Step(s, Place(w, Answered)) == s.(dead := s.dead + [id], hands := s.hands[w := Free])
  {
  }

  // ---------- Draining ----------

  /** Pops an id can still cause: the tries left, or one if its hash is gone. */
  function Weight(hashes: map<Id, Record>, id: Id): (n: nat)
    ensures n >= 1
  {
    if id in hashes && hashes[id].retryCount <= Granted(hashes[id])
    then Granted(hashes[id]) + 1 - hashes[id].retryCount else 1
  }

  function HandWeight(hashes: map<Id, Record>, h: Hand): nat {
    match h
    case Free => 0
    case Placing(id, again) => if again then Weight(hashes, id) else 0
    case _ => Weight(hashes, h.id) - 1
  }

  function ListWeight(hashes: map<Id, Record>, ids: seq<Id>): nat {
    if ids == [] then 0 else Weight(hashes, ids[0]) + ListWeight(hashes, ids[1..])
  }

  function HandsWeight(hashes: map<Id, Record>, hands: seq<Hand>): nat {
    if hands == [] then 0
    else HandsWeight(hashes, hands[..|hands| - 1]) + HandWeight(hashes, hands[|hands| - 1])
  }

  /** Pops that can still happen. */
  function Potential(s: State): nat {
    ListWeight(s.hashes, s.pending) + HandsWeight(s.hashes, s.hands)
  }

  lemma {:induction false} ListPush(hashes: map<Id, Record>, ids: seq<Id>, id: Id)
    ensures ListWeight(hashes, ids + [id]) == ListWeight(hashes, ids) + Weight(hashes, id)
  {
    if ids == [] {
      assert [id][1..] == [] && [] + [id] == [id];
    } else {
      assert (ids + [id])[1..] == ids[1..] + [id];
      ListPush(hashes, ids[1..], id);
    }
  }

  lemma {:induction false} HandMoves(hashes: map<Id, Record>, hands: seq<Hand>, w: nat, h: Hand)
    requires w < |hands|
    ensures HandsWeight(hashes, hands[w := h]) + HandWeight(hashes, hands[w])
            == HandsWeight(hashes, hands) + HandWeight(hashes, h)
    decreases |hands|
  {
    var n := |hands| - 1;
    var hands' := hands[w := h];
    if w < n {
      HandMoves(hashes, hands[..n], w, h);
      assert hands'[..n] == hands[..n][w := h];
    } else {
      assert hands'[..n] == hands[..n];
    }
  }

  lemma {:induction false} ListLighter(h: map<Id, Record>, h': map<Id, Record>, ids: seq<Id>)
    requires forall id <- ids :: Weight(h', id) <= Weight(h, id)
    ensures ListWeight(h', ids) <= ListWeight(h, ids)
  {
    if ids != [] {
      ListLighter(h, h', ids[1..]);
    }
  }

  lemma {:induction false} HandsLighter(h: map<Id, Record>, h': map<Id, Record>, hands: seq<Hand>)
    requires forall x <- hands | !x.Free? :: Weight(h', x.id) <= Weight(h, x.id)
    ensures HandsWeight(h', hands) <= HandsWeight(h, hands)
  {
    if hands != [] {
      var n := |hands| - 1;
      assert hands[n] in hands;
      HandsLighter(h, h', hands[..n]);
    }
  }

  /** The pop takes something off the list. */
  predicate Takes(s: State, a: Action) {
    Enabled(s, a) && a.Pop? && s.pending != [] && !a.reply.FailedLost?
  }

  /** Tries a message brings along. */
  function Brings(s: State, a: Action): nat {
    if Enabled(s, a) && a.Create? then Granted(Record(Pending, 0, a.maxRetry)) + 1 else 0
  }

  /** Nothing a step writes makes an id heavier, but for one that is created. */
  lemma WritesLighten(s: State, a: Action, id: Id)
    requires Inv(s) && Enabled(s, a) && !(a.Create? && a.id == id)
    ensures Weight(Step(s, a).hashes, id) <= Weight(s.hashes, id)
  {
    if a.Mark? {
      assert HandOk(s, s.hands[a.w]);
      if id in s.hashes {
        assert RecordOk(s, id);
      }
    }
  }

  /** A processor's step, weighed with the hashes as they are afterwards. */
  lemma OwnWeight(s: State, a: Action)
    requires Inv(s) && Enabled(s, a) && !a.Create? && !a.Expire?
    ensures var s' := Step(s, a);
            ListWeight(s'.hashes, s'.pending) + HandWeight(s'.hashes, s'.hands[a.w]) + One(Takes(s, a))
            <= ListWeight(s'.hashes, s.pending) + HandWeight(s.hashes, s.hands[a.w])
  {
    var s', h := Step(s, a), s.hands[a.w];
    if a.Mark? {
      MarkWeight(s, a);
    } else if a.Place? {
      ListPush(s'.hashes, s.pending, h.id);
    }
  }

  /** A retry is one try less. */
  lemma MarkWeight(s: State, a: Action)
    requires Inv(s) && Enabled(s, a) && a.Mark?
    ensures var s' := Step(s, a); HandWeight(s'.hashes, s'.hands[a.w]) <= HandWeight(s.hashes, s.hands[a.w])
  {
    var h := s.hands[a.w];
    assert HandOk(s, h) && RecordOk(s, h.id);
  }

  lemma CreatePotential(s: State, a: Action)
    requires Inv(s) && Enabled(s, a) && a.Create?
    ensures Potential(Step(s, a)) <= Potential(s) + Brings(s, a)
  {
    var h := Step(s, a).hashes;
    assert UnusedOk(s, a.id);
    NewIsNowhere(s, a.id);
    ListPush(h, s.pending, a.id);
    ListLighter(s.hashes, h, s.pending);
    HandsLighter(s.hashes, h, s.hands);
  }

  lemma ExpirePotential(s: State, id: Id)
    ensures Potential(Step(s, Expire(id))) <= Potential(s)
  {
    var h := Step(s, Expire(id)).hashes;
    ListLighter(s.hashes, h, s.pending);
    HandsLighter(s.hashes, h, s.hands);
  }

  lemma OwnPotential(s: State, a: Action)
    requires Inv(s) && Enabled(s, a) && !a.Create? && !a.Expire?
    ensures Potential(Step(s, a)) + One(Takes(s, a)) <= Potential(s)
  {
    var h, hands, mine := Step(s, a).hashes, Step(s, a).hands, Step(s, a).hands[a.w];
    forall id ensures Weight(h, id) <= Weight(s.hashes, id) {
      WritesLighten(s, a, id);
    }
    OwnWeight(s, a);
    ListLighter(s.hashes, h, s.pending);
    HandMoves(s.hashes, s.hands, a.w, Free);
    HandMoves(h, s.hands, a.w, Free);
    HandMoves(h, s.hands, a.w, mine);
    assert hands == s.hands[a.w := mine];
    HandsLighter(s.hashes, h, s.hands[a.w := Free]);
  }

  /** A step of anyone uses up the pops it makes, whatever fails. */
  lemma StepPotential(s: State, a: Action)
    requires Inv(s)
    ensures Potential(Step(s, a)) + One(Takes(s, a)) <= Potential(s) + Brings(s, a)
  {
    if Enabled(s, a) {
      match a
      case Create(_, _, _, _, _) => CreatePotential(s, a);
      case Expire(id) => ExpirePotential(s, id);
      case _ => OwnPotential(s, a);
    }
  }

  lemma NewIsNowhere(s: State, id: Id)
    requires UnusedOk(s, id) && id !in s.created
    ensures id !in s.pending && forall h <- s.hands :: !Has(h, id)
  {
    InHandsIff(s.hands, id);
  }

  function TakesIn(s: State, acts: seq<Action>): nat
    decreases |acts|
  {
    if acts == [] then 0 else One(Takes(s, acts[0])) + TakesIn(Step(s, acts[0]), acts[1..])
  }

  function BringsIn(s: State, acts: seq<Action>): nat
    decreases |acts|
  {
    if acts == [] then 0 else Brings(s, acts[0]) + BringsIn(Step(s, acts[0]), acts[1..])
  }

  /** No retrying for ever: all processors together take at most as many messages off the list
      as the waiting and the new messages have tries, whatever fails, in every run. */
  lemma {:induction false} PopsAreBounded(s: State, acts: seq<Action>)
    requires Inv(s)
    ensures TakesIn(s, acts) + Potential(Exec(s, acts)) <= Potential(s) + BringsIn(s, acts)
    decreases |acts|
  {
    if acts != [] {
      StepPotential(s, acts[0]);
      StepKeepsInv(s, acts[0]);
      PopsAreBounded(Step(s, acts[0]), acts[1..]);
    }
  }

  /** Pops that reach the server, on an empty list or not. */
  function PopsIn(s: State, acts: seq<Action>): nat
    decreases |acts|
  {
    if acts == [] then 0
    else One(Enabled(s, acts[0]) && acts[0].Pop? && !acts[0].reply.FailedLost?) + PopsIn(Step(s, acts[0]), acts[1..])
  }

  /** Some pop of the run finds the list empty. */
  predicate FindsEmpty(s: State, acts: seq<Action>)
    decreases |acts|
  {
    acts != [] && ((Enabled(s, acts[0]) && acts[0].Pop? && s.pending == []) || FindsEmpty(Step(s, acts[0]), acts[1..]))
  }

  lemma {:induction false} NonemptyPops(s: State, acts: seq<Action>)
    requires !FindsEmpty(s, acts)
    ensures PopsIn(s, acts) == TakesIn(s, acts)
    decreases |acts|
  {
    if acts != [] {
      NonemptyPops(Step(s, acts[0]), acts[1..]);
    }
  }

  /** The list drains: with more pops than that, some pop finds it empty. */
  lemma Drains(s: State, acts: seq<Action>)
    requires Inv(s) && PopsIn(s, acts) > Potential(s) + BringsIn(s, acts)
    ensures FindsEmpty(s, acts)
  {
    PopsAreBounded(s, acts);
    if !FindsEmpty(s, acts) {
      NonemptyPops(s, acts);
    }
  }

  // ---------- The same in numbers ----------

  /** The pops of a run that take something off the list, and its new messages. */
  function Taken(s: State, acts: seq<Action>): set<nat> {
    set i | 0 <= i < |acts| && Takes(Exec(s, acts[..i]), acts[i])
  }

  function Creates(acts: seq<Action>): set<nat> { set i | 0 <= i < |acts| && acts[i].Create? }

  lemma {:induction false} TakesAppend(s: State, acts: seq<Action>, a: Action)
    ensures TakesIn(s, acts + [a]) == TakesIn(s, acts) + One(Takes(Exec(s, acts), a))
    ensures BringsIn(s, acts + [a]) == BringsIn(s, acts) + Brings(Exec(s, acts), a)
    decreases |acts|
  {
    if acts == [] {
      assert acts + [a] == [a] && [a][1..] == [];
    } else {
      assert (acts + [a])[1..] == acts[1..] + [a];
      TakesAppend(Step(s, acts[0]), acts[1..], a);
    }
  }

  lemma CreatesAppend(acts: seq<Action>, a: Action)
    ensures |Creates(acts + [a])| == |Creates(acts)| + One(a.Create?)
  {
    assert Creates(acts + [a]) == Creates(acts) + if a.Create? then {|acts|} else {};
  }

  lemma TakenAppend(s: State, acts: seq<Action>, a: Action)
    ensures |Taken(s, acts + [a])| == |Taken(s, acts)| + One(Takes(Exec(s, acts), a))
  {
    var longer := acts + [a];
    assert longer[..|acts|] == acts;
    forall i | 0 <= i < |acts| ensures i in Taken(s, longer) <==> i in Taken(s, acts) {
      assert longer[..i] == acts[..i];
    }
    OneMore(Taken(s, acts), Taken(s, longer), |acts|);
  }

  lemma OneMore(less: set<nat>, more: set<nat>, n: nat)
    requires (forall i <- less :: i < n) && (forall i <- more :: i <= n)
    requires forall i | 0 <= i < n :: i in more <==> i in less
    ensures |more| == |less| + One(n in more)
  {
    assert more == less + if n in more then {n} else {};
  }

  lemma {:induction false} TakesAreCounted(s: State, acts: seq<Action>)
    ensures TakesIn(s, acts) == |Taken(s, acts)|
    decreases |acts|
  {
    if acts != [] {
      var front, a := acts[..|acts| - 1], acts[|acts| - 1];
      assert acts == front + [a];
      TakesAreCounted(s, front);
      TakesAppend(s, front, a);
      TakenAppend(s, front, a);
    }
  }

  lemma TimesAdd(m: nat, a: nat, b: nat)
    ensures (m + 1) * (a + b) == (m + 1) * a + (m + 1) * b
  {
  }

  lemma {:induction false} BringsAreCounted(s: State, acts: seq<Action>, m: nat)
    requires forall i | 0 <= i < |acts| :: acts[i].Create? ==> acts[i].maxRetry <= m
    ensures BringsIn(s, acts) <= (m + 1) * |Creates(acts)|
    decreases |acts|
  {
    if acts != [] {
      var front, a := acts[..|acts| - 1], acts[|acts| - 1];
      assert acts == front + [a];
      BringsAreCounted(s, front, m);
      TakesAppend(s, front, a);
      CreatesAppend(front, a);
      TimesAdd(m, |Creates(front)|, One(a.Create?));
      BringsAtMost(Exec(s, front), a, m);
    }
  }

  lemma BringsAtMost(s: State, a: Action, m: nat)
    requires a.Create? ==> a.maxRetry <= m
    ensures Brings(s, a) <= (m + 1) * One(a.Create?)
  {
  }

  lemma {:induction false} WaitingAreCounted(hashes: map<Id, Record>, ids: seq<Id>, m: nat)
    requires forall id <- hashes :: hashes[id].retryCount >= 0 && hashes[id].maxRetry <= m
    ensures ListWeight(hashes, ids) <= (m + 1) * |ids|
  {
    if ids != [] {
      WaitingAreCounted(hashes, ids[1..], m);
      TimesAdd(m, 1, |ids| - 1);
      assert Weight(hashes, ids[0]) <= m + 1;
    }
  }

  lemma {:induction false} NoHands(hashes: map<Id, Record>, hands: seq<Hand>)
    requires forall i | 0 <= i < |hands| :: hands[i].Free?
    ensures HandsWeight(hashes, hands) == 0
  {
    if hands != [] {
      NoHands(hashes, hands[..|hands| - 1]);
    }
  }

  lemma StartAtMost(s: State, m: nat)
    requires Inv(s) && forall i | 0 <= i < |s.hands| :: s.hands[i].Free?
    requires forall id <- s.hashes :: s.hashes[id].maxRetry <= m
    ensures Potential(s) <= (m + 1) * |s.pending|
  {
    NoHands(s.hashes, s.hands);
    forall id <- s.hashes ensures s.hashes[id].retryCount >= 0 {
      assert RecordOk(s, id);
    }
    WaitingAreCounted(s.hashes, s.pending, m);
  }

  lemma TakenAtMost(s: State, acts: seq<Action>, m: nat)
    requires Inv(s) && forall i | 0 <= i < |s.hands| :: s.hands[i].Free?
    requires forall id <- s.hashes :: s.hashes[id].maxRetry <= m
    requires forall i | 0 <= i < |acts| :: acts[i].Create? ==> acts[i].maxRetry <= m
    ensures |Taken(s, acts)| <= (m + 1) * (|s.pending| + |Creates(acts)|)
  {
    PopsAreBounded(s, acts);
    TakesAreCounted(s, acts);
    BringsAreCounted(s, acts, m);
    StartAtMost(s, m);
    TimesAdd(m, |s.pending|, |Creates(acts)|);
  }

  lemma SubsetSize(less: set<nat>, more: set<nat>)
    requires less <= more
    ensures |less| <= |more|
  {
    assert more == less + (more - less);
  }

  /** With at most m retries a message, all processors together take at most m + 1 times as many
      ids off the list as wait at the start or are created, whatever fails. */
  lemma PopsPerMessage(s: State, acts: seq<Action>, m: nat, pops: set<nat>)
    requires Inv(s) && forall i | 0 <= i < |s.hands| :: s.hands[i].Free?
    requires forall id <- s.hashes :: s.hashes[id].maxRetry <= m
    requires forall i | 0 <= i < |acts| :: acts[i].Create? ==> acts[i].maxRetry <= m
    requires forall i <- pops :: i < |acts| && Takes(Exec(s, acts[..i]), acts[i])
    ensures |pops| <= (m + 1) * (|s.pending| + |set i | 0 <= i < |acts| && acts[i].Create?|)
  {
    TakenAtMost(s, acts, m);
    SubsetSize(pops, Taken(s, acts));
    assert Creates(acts) == set i | 0 <= i < |acts| && acts[i].Create?;
  }

  // ---------- The loop of one processor ----------

  /** How a call ends: after its rounds or on an empty list, by a Redis error, or by the
      sender's exit. */
  datatype Ending = Going | Errored | Exited

  function EndingOf(a: Action): Ending {
    match a
    case Send(_, verdict) => if verdict.Killed? then Exited else Going
    case Create(_, _, _, _, _) => Going
    case Expire(_) => Going
    case _ => if a.reply.Answered? then Going else Errored
  }

  /** What the world does at the n-th command or call of this processor: the others' actions
      before it, and how it ends. */
  datatype World = World(others: nat -> seq<Action>, reply: nat -> Reply, verdict: nat -> Verdict)

  ghost predicate Foreign(world: World, w: nat) {
    forall n: nat, i: nat {:trigger world.others(n)[i]} :: i < |world.others(n)| ==> !By(world.others(n)[i], w)
  }

  function Front(own: seq<Action>): seq<Action>
    requires own != []
  {
    own[..|own| - 1]
  }

  function Back(own: seq<Action>): Action
    requires own != []
  {
    own[|own| - 1]
  }

  /** After this the loop goes on: the command was answered, the sender was not killed. */
  predicate GoesOn(a: Action) {
    match a
    case Send(_, verdict) => !verdict.Killed?
    case Create(_, _, _, _, _) => true
    case Expire(_) => true
    case _ => a.reply.Answered?
  }

  lemma {:induction false} EarlierGoOn(s: State, world: World, n: nat, w: nat, own: seq<Action>)
    requires Legal(s, world, n, w, own)
    ensures forall i | 0 <= i < |own| - 1 :: GoesOn(own[i])
    ensures Last(own).Going? <==> own == [] || GoesOn(own[|own| - 1])
    decreases |own|
  {
    if |own| > 1 {
      EarlierGoOn(s, world, n, w, Front(own));
      forall i | 0 <= i < |own| - 1 ensures GoesOn(own[i]) {
        assert own[i] == Front(own)[i];
      }
    }
  }

  lemma {:induction false} PopsAreCounted(own: seq<Action>)
    ensures Pops(own) == |set i | 0 <= i < |own| && own[i].Pop?|
  {
    if own != [] {
      var n, front := |own| - 1, Front(own);
      PopsAreCounted(front);
      assert (set i | 0 <= i < |own| && own[i].Pop?)
          == (set i | 0 <= i < n && front[i].Pop?) + if own[n].Pop? then {n} else {};
    }
  }

  lemma {:induction false} SuccessesAreCounted(own: seq<Action>)
    ensures Successes(own) == |set i | 0 < i < |own| && own[i].Mark? && own[i].reply.Answered?
                                       && own[i - 1].Send? && own[i - 1].verdict.Accepted?|
  {
    if own != [] {
      var n, front := |own| - 1, Front(own);
      SuccessesAreCounted(front);
      assert (set i | 0 < i < |own| && own[i].Mark? && own[i].reply.Answered?
                      && own[i - 1].Send? && own[i - 1].verdict.Accepted?)
          == (set i | 0 < i < n && front[i].Mark? && front[i].reply.Answered?
                      && front[i - 1].Send? && front[i - 1].verdict.Accepted?)
             + if EndsInSuccess(own) then {n} else {};
    }
  }

  function Last(own: seq<Action>): Ending {
    if own == [] then Going else EndingOf(Back(own))
  }

  /** The run in which this processor, from its n-th call on, does `own` and others act in
      between. */
  function Trace(world: World, n: nat, own: seq<Action>): seq<Action> {
    if own == [] then [] else Trace(world, n, Front(own)) + world.others(n + |own| - 1) + [Back(own)]
  }

  /** Every action of the processor happens where its program stands, ends as the world says,
      and none but the last ends the loop. */
  predicate Legal(s: State, world: World, n: nat, w: nat, own: seq<Action>)
    decreases |own|
  {
    own == [] ||
    var a, k := Back(own), n + |own| - 1;
    && Legal(s, world, n, w, Front(own)) && Last(Front(own)) == Going
    && By(a, w) && (if a.Send? then a.verdict == world.verdict(k) else a.reply == world.reply(k))
    && Enabled(Exec(Exec(s, Trace(world, n, Front(own))), world.others(k)), a)
  }

  function Pops(own: seq<Action>): nat { if own == [] then 0 else Pops(Front(own)) + One(Back(own).Pop?) }

  /** Messages accepted by the sender and marked as sent with an answer. */
  function Successes(own: seq<Action>): nat {
    if own == [] then 0 else Successes(Front(own)) + One(EndsInSuccess(own))
  }

  predicate EndsInSuccess(own: seq<Action>)
    requires own != []
  {
    && Back(own).Mark? && Back(own).reply.Answered?
    && Front(own) != [] && Back(Front(own)).Send? && Back(Front(own)).verdict.Accepted?
  }

  lemma {:induction false} ForeignRun(s: State, w: nat, acts: seq<Action>)
    requires w < |s.hands| && forall a <- acts :: !By(a, w)
    ensures var s' := Exec(s, acts); |s'.hands| == |s.hands| && s'.hands[w] == s.hands[w]
    decreases |acts|
  {
    if acts != [] {
      assert !By(acts[0], w);
      ForeignRun(Step(s, acts[0]), w, acts[1..]);
    }
  }

  /** Others' actions leave what this processor can do next. */
  lemma StillEnabled(s: State, s1: State, a: Action, w: nat)
    requires By(a, w) && Enabled(s, a) && |s1.hands| == |s.hands| && w < |s.hands| && s1.hands[w] == s.hands[w]
    ensures Enabled(s1, a)
  {
  }

  /** A run goes on with others' actions and one of this processor. */
  lemma Extend(s: State, world: World, n: nat, own: seq<Action>, a: Action)
    ensures Front(own + [a]) == own && Back(own + [a]) == a
    ensures Exec(s, Trace(world, n, own + [a])) == Step(Exec(Exec(s, Trace(world, n, own)), world.others(n + |own|)), a)
  {
    var others := world.others(n + |own|);
    assert Front(own + [a]) == own;
    ExecAppend(s, Trace(world, n, own), others);
    ExecAppend(s, Trace(world, n, own) + others, [a]);
    assert [a][1..] == [];
  }

  /** So do its legality and its counts. */
  lemma LegalExtends(s: State, s1: State, world: World, n: nat, w: nat, own: seq<Action>, a: Action)
    requires Legal(s, world, n, w, own) && Last(own) == Going && By(a, w)
    requires if a.Send? then a.verdict == world.verdict(n + |own|) else a.reply == world.reply(n + |own|)
    requires s1 == Exec(Exec(s, Trace(world, n, own)), world.others(n + |own|)) && Enabled(s1, a)
    ensures var own' := own + [a];
            && Legal(s, world, n, w, own') && Last(own') == EndingOf(a) && Pops(own') == Pops(own) + One(a.Pop?)
            && Successes(own') == Successes(own) + One(EndsInSuccess(own'))
  {
    assert Front(own + [a]) == own && Back(own + [a]) == a;
  }

  /** Lists, hashes and everybody using them. */
  class Table {
    var s: State
    constructor (s: State)
      ensures this.s == s
    {
      this.s := s;
    }
  }

  class Processor {
    const me: nat
    const world: World
    var calls: nat

    constructor (me: nat, world: World)
      ensures this.me == me && this.world == world
    {
      this.me, this.world, this.calls := me, world, 0;
    }

    /** The caller gets the id whatever happens; a Redis error is swallowed. */
    method CreateLocalMessage(t: Table, id: Id, maxRetry: int, write: Reply, expire: Reply, push: Reply)
      requires Inv(t.s) && id !in t.s.created
      modifies t
      ensures t.s == Step(old(t.s), Create(id, maxRetry, write, expire, push)) && Inv(t.s)
      ensures id in t.s.hashes <==> !write.FailedLost?
      ensures id in t.s.hashes ==> t.s.hashes[id] == Record(Pending, 0, maxRetry)
      ensures t.s.pending == if write.Answered? && expire.Answered? && !push.FailedLost? then old(t.s.pending) + [id]
                             else old(t.s.pending)
      ensures Places(t.s, id) == One(write.Answered? && expire.Answered? && !push.FailedLost?)
    {
      var a := Create(id, maxRetry, write, expire, push);
      assert UnusedOk(t.s, id);
      PushTimes(t.s.pending, id, id);
      StepKeepsInv(t.s, a);
      t.s := Step(t.s, a);
    }

    ghost predicate At(t: Table, hand: Hand)
      reads t
    {
      me < |t.s.hands| && t.s.hands[me] == hand
    }

    /** The call so far: from its n-th command on this processor has done `own`. */
    ghost predicate Ran(t: Table, s0: State, n: nat, own: seq<Action>)
      reads this, t
    {
      && Foreign(world, me) && calls == n + |own|
      && t.s == Exec(s0, Trace(world, n, own)) && Legal(s0, world, n, me, own)
    }

    ghost predicate Runs(t: Table, s0: State, n: nat, own: seq<Action>)
      reads this, t
    {
      Ran(t, s0, n, own) && Last(own) == Going
    }

    /** Others act, then this processor's next command or call. */
    method Do(t: Table, a: Action, ghost s0: State, ghost n: nat, ghost own: seq<Action>)
      returns (ghost own': seq<Action>, ghost s1: State)
      requires Runs(t, s0, n, own) && me < |t.s.hands| && By(a, me) && Enabled(t.s, a)
      requires if a.Send? then a.verdict == world.verdict(calls) else a.reply == world.reply(calls)
      modifies t, this
      ensures Ran(t, s0, n, own') && own' == own + [a] && Last(own') == EndingOf(a)
      ensures Front(own') == own && Back(own') == a
      ensures Pops(own') == Pops(own) + One(a.Pop?) && Successes(own') == Successes(own) + One(EndsInSuccess(own'))
      ensures t.s == Step(s1, a) && me < |s1.hands| && s1.hands[me] == old(t.s.hands[me])
    {
      var others := world.others(calls);
      ForeignRun(t.s, me, others);
      s1, own' := Exec(t.s, others), own + [a];
      StillEnabled(t.s, s1, a, me);
      Extend(s0, world, n, own, a);
      LegalExtends(s0, s1, world, n, me, own, a);
      t.s := Exec(t.s, others);
      t.s := Step(t.s, a);
      calls := calls + 1;
    }

    /** `processed` counts the messages marked as sent; it is returned unless an error or exit
        leaves the method. */
    method ProcessLocalMessages(t: Table, limit: nat) returns (processed: nat, ending: Ending, ghost own: seq<Action>)
      requires At(t, Free) && Foreign(world, me)
      modifies t, this
      ensures At(t, Free) && Ran(t, old(t.s), old(calls), own) && ending == Last(own)
      ensures processed == |set i | 0 < i < |own| && own[i].Mark? && own[i].reply.Answered?
                                    && own[i - 1].Send? && own[i - 1].verdict.Accepted?|
      ensures var pops := |set i | 0 <= i < |own| && own[i].Pop?|;
              pops <= limit && (ending == Going ==> pops == limit || t.s.pending == [])
      ensures forall i | 0 <= i < |own| - 1 :: GoesOn(own[i])
      ensures ending.Going? <==> own == [] || GoesOn(own[|own| - 1])
      ensures ending.Exited? <==> own != [] && own[|own| - 1].Send? && own[|own| - 1].verdict.Killed?
    {
      processed, ending, own := RunLoop(t, limit);
      PopsAreCounted(own);
      SuccessesAreCounted(own);
      EarlierGoOn(old(t.s), world, old(calls), me, own);
    }

    method RunLoop(t: Table, limit: nat) returns (processed: nat, ending: Ending, ghost own: seq<Action>)
      requires At(t, Free) && Foreign(world, me)
      modifies t, this
      ensures At(t, Free) && Ran(t, old(t.s), old(calls), own) && ending == Last(own)
      ensures processed == Successes(own) && Pops(own) <= limit
      ensures ending == Going ==> Pops(own) == limit || t.s.pending == []
    {
      own, processed, ending := [], 0, Going;
      for i := 0 to limit
        invariant At(t, Free) && Runs(t, old(t.s), old(calls), own) && ending == Going
        invariant processed == Successes(own) && i == Pops(own)
      {
        var empty, success := false, false;
        empty, ending, own := PopOne(t, old(t.s), old(calls), own);
        if empty {
          break;
        }
        if ending == Going {
          ending, own := ReadOne(t, old(t.s), old(calls), own);
        }
        if ending == Going && !t.s.hands[me].Free? {
          success, ending, own := SendOne(t, old(t.s), old(calls), own);
        }
        if success {
          processed := processed + 1;
        }
        if ending != Going {
          return;
        }
      }
    }

    method PopOne(t: Table, ghost s0: State, ghost n: nat, ghost own: seq<Action>)
      returns (empty: bool, ending: Ending, ghost own': seq<Action>)
      requires At(t, Free) && Runs(t, s0, n, own)
      modifies t, this
      ensures Ran(t, s0, n, own') && ending == Last(own')
      ensures Pops(own') == Pops(own) + 1 && Successes(own') == Successes(own)
      ensures if empty || ending != Going then At(t, Free) else me < |t.s.hands| && t.s.hands[me].Popped?
      ensures empty ==> ending == Going && t.s.pending == []
    {
      var reply := world.reply(calls);
      ghost var s1;
      own', s1 := Do(t, Pop(me, reply), s0, n, own);
      ending := if reply.Answered? then Going else Errored;
      empty := reply.Answered? && t.s.hands[me].Free?;
    }

    /** Read the hash; the message is let go if it has none. */
    method ReadOne(t: Table, ghost s0: State, ghost n: nat, ghost own: seq<Action>)
      returns (ending: Ending, ghost own': seq<Action>)
      requires me < |t.s.hands| && t.s.hands[me].Popped? && Runs(t, s0, n, own)
      modifies t, this
      ensures Ran(t, s0, n, own') && ending == Last(own')
      ensures Pops(own') == Pops(own) && Successes(own') == Successes(own)
      ensures me < |t.s.hands| && (t.s.hands[me].Asking? || t.s.hands[me].Free?)
      ensures t.s.hands[me].Asking? ==> ending == Going
      ensures ending == Going && t.s.hands[me].Free? ==> old(t.s.hands[me].id) !in t.s.hashes
    {
      var reply := world.reply(calls);
      ghost var s1;
      own', s1 := Do(t, Read(me, reply), s0, n, own);
      ending := if reply.Answered? then Going else Errored;
    }

    /** Hand the message to the sender and note the outcome. */
    method SendOne(t: Table, ghost s0: State, ghost n: nat, ghost own: seq<Action>)
      returns (success: bool, ending: Ending, ghost own': seq<Action>)
      requires me < |t.s.hands| && t.s.hands[me].Asking? && Runs(t, s0, n, own)
      modifies t, this
      ensures At(t, Free) && Ran(t, s0, n, own') && ending == Last(own')
      ensures Pops(own') == Pops(own) && Successes(own') == Successes(own) + One(success)
    {
      var verdict := world.verdict(calls);
      ghost var s1;
      own', s1 := Do(t, Send(me, verdict), s0, n, own);
      if verdict.Killed? {
        return false, Exited, own';
      }
      success, ending, own' := NoteOne(t, verdict.Accepted?, s0, n, own');
    }

    /** Note the outcome in the hash, and place the message if it was not accepted. */
    method NoteOne(t: Table, accepted: bool, ghost s0: State, ghost n: nat, ghost own: seq<Action>)
      returns (success: bool, ending: Ending, ghost own': seq<Action>)
      requires me < |t.s.hands| && t.s.hands[me].Marking? && t.s.hands[me].accepted == accepted && Runs(t, s0, n, own)
      requires own != [] && Back(own).Send? && Back(own).verdict.Accepted? == accepted
      modifies t, this
      ensures At(t, Free) && Ran(t, s0, n, own') && ending == Last(own')
      ensures Pops(own') == Pops(own) && Successes(own') == Successes(own) + One(success)
    {
      success, ending, own' := MarkOne(t, accepted, s0, n, own);
      if ending == Going && !accepted {
        ending, own' := PlaceOne(t, s0, n, own');
      }
    }

    /** Write the status or the retry count; a message that was not accepted is still to be
        placed if that was answered. */
    method MarkOne(t: Table, accepted: bool, ghost s0: State, ghost n: nat, ghost own: seq<Action>)
      returns (success: bool, ending: Ending, ghost own': seq<Action>)
      requires me < |t.s.hands| && t.s.hands[me].Marking? && t.s.hands[me].accepted == accepted && Runs(t, s0, n, own)
      requires own != [] && Back(own).Send? && Back(own).verdict.Accepted? == accepted
      modifies t, this
      ensures Ran(t, s0, n, own') && ending == Last(own')
      ensures Pops(own') == Pops(own) && Successes(own') == Successes(own) + One(success)
      ensures if ending == Going && !accepted then me < |t.s.hands| && t.s.hands[me].Placing? else At(t, Free)
    {
      var reply := world.reply(calls);
      ghost var s1;
      own', s1 := Do(t, Mark(me, reply), s0, n, own);
      success, ending := accepted && reply.Answered?, if reply.Answered? then Going else Errored;
    }

    /** Back to the pending list or to the dead ones. */
    method PlaceOne(t: Table, ghost s0: State, ghost n: nat, ghost own: seq<Action>)
      returns (ending: Ending, ghost own': seq<Action>)
      requires me < |t.s.hands| && t.s.hands[me].Placing? && Runs(t, s0, n, own)
      modifies t, this
      ensures At(t, Free) && Ran(t, s0, n, own') && ending == Last(own')
      ensures Pops(own') == Pops(own) && Successes(own') == Successes(own)
    {
      var reply := world.reply(calls);
      ghost var s1;
      own', s1 := Do(t, Place(me, reply), s0, n, own);
      ending := if reply.Answered? then Going else Errored;
    }
  }
}
