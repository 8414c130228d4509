/** The transactional outbox: any number of dispatchers pop messages from one list, hand them
    to the sender and put back what it did not take, while others publish. Every command to
    the list is one atomic step and may fail, carried out or not. */
module Outbox {
  import opened RedisReply

  type Message = string

  /** How one call of the sender ends. `Killed` is an exit that "except Exception" does
      not catch. */
  datatype Verdict = Accepted | Refused | Raised | Killed

  /** What a dispatcher has in its hands. `Returning`: the sender refused. `Handling`: in the
      exception handler; `back` if the message is in the list again already. */
  datatype Hand = Free | Sending(m: Message) | Returning(m: Message) | Handling(m: Message, back: bool)

  /** The list, the dispatchers, what the sender took, and what was ever published. */
  datatype State = State(queue: seq<Message>, hands: seq<Hand>, delivered: seq<Message>, published: set<Message>)

  datatype Action =
    | Publish(m: Message, reply: Reply)
    | Pop(w: nat, reply: Reply)
    | Send(w: nat, verdict: Verdict)
    | PutBack(w: nat, reply: Reply)
    | PutAgain(w: nat, reply: Reply)

  predicate By(a: Action, w: nat) { !a.Publish? && a.w == w }

  predicate Enabled(s: State, a: Action) {
    match a
    case Publish(m, _) => m !in s.published
    case Pop(w, _) => w < |s.hands| && s.hands[w].Free?
    case Send(w, _) => w < |s.hands| && s.hands[w].Sending?
    case PutBack(w, _) => w < |s.hands| && s.hands[w].Returning?
    case PutAgain(w, _) => w < |s.hands| && s.hands[w].Handling?
  }

  function Pushed(q: seq<Message>, m: Message, reply: Reply): seq<Message> {
    if reply.FailedLost? then q else q + [m]
  }

  /** What the sender's verdict makes of the hand; a killed dispatcher is gone. */
  function Sent(m: Message, verdict: Verdict): Hand {
    match verdict
    case Accepted => Free
    case Refused => Returning(m)
    case Raised => Handling(m, false)
    case Killed => Free
  }

  /** One command or call. A failed put-back of a refused message is caught by the handler,
      which puts it back once more. */
  function Step(s: State, a: Action): State {
    if !Enabled(s, a) then s else
    match a
    case Publish(m, reply) =>
      s.(queue := Pushed(s.queue, m, reply),
         published := if reply.FailedLost? then s.published else s.published + {m})
    case Pop(w, reply) =>
      if s.queue == [] || reply.FailedLost? then s
      else s.(queue := s.queue[1..],
              hands := if reply.Answered? then s.hands[w := Sending(s.queue[0])] else s.hands)
    case Send(w, verdict) =>
      s.(hands := s.hands[w := Sent(s.hands[w].m, verdict)],
         delivered := if verdict.Accepted? then s.delivered + [s.hands[w].m] else s.delivered)
    case PutBack(w, reply) =>
      var m := s.hands[w].m;
      s.(queue := Pushed(s.queue, m, reply),
         hands := s.hands[w := if reply.Answered? then Free else Handling(m, reply.FailedApplied?)])
    case PutAgain(w, reply) =>
      s.(queue := Pushed(s.queue, s.hands[w].m, reply), hands := s.hands[w := Free])
  }

  function Exec(s: State, acts: seq<Action>): State
    decreases |acts|
  {
    if acts == [] then s else Exec(Step(s, acts[0]), acts[1..])
  }

  lemma {:induction false} ExecAppend(s: State, a: seq<Action>, b: seq<Action>)
    ensures Exec(s, a + b) == Exec(Exec(s, a), b)
    decreases |a|
  {
    if a == [] {
      assert a + b == b;
    } else {
      assert (a + b)[1..] == a[1..] + b;
      ExecAppend(Step(s, a[0]), a[1..], b);
    }
  }

  // ---------- Where messages get lost and doubled ----------

  /** The message an action is about. */
  function Its(s: State, a: Action): Message
    requires Enabled(s, a) && (a.Pop? ==> s.queue != [])
  {
    match a
    case Publish(m, _) => m
    case Pop(_, _) => s.queue[0]
    case Send(w, _) => s.hands[w].m
    case PutBack(w, _) => s.hands[w].m
    case PutAgain(w, _) => s.hands[w].m
  }

  predicate Concerns(s: State, a: Action) {
    Enabled(s, a) && (a.Pop? ==> s.queue != [])
  }

  /** A copy is lost: the answer to a pop is lost, the sender is killed, or the last put-back
      does not arrive. */
  predicate Loses(s: State, a: Action) {
    Concerns(s, a) &&
    match a
    case Pop(_, reply) => reply.FailedApplied?
    case Send(_, verdict) => verdict.Killed?
    case PutAgain(w, reply) => reply.FailedLost? && !s.hands[w].back
    case _ => false
  }

  /** A copy is made: the answer to the first put-back was lost and the second arrives. */
  predicate Doubles(s: State, a: Action) {
    Concerns(s, a) && a.PutAgain? && !a.reply.FailedLost? && s.hands[a.w].back
  }

  predicate Publishes(s: State, a: Action) {
    Enabled(s, a) && a.Publish? && !a.reply.FailedLost?
  }

  function One(b: bool): nat { if b then 1 else 0 }

  /** Copies of a message lost, made by doubling, and published in a run. */
  function LostIn(s: State, acts: seq<Action>, m: Message): nat
    decreases |acts|
  {
    if acts == [] then 0
    else One(Loses(s, acts[0]) && Its(s, acts[0]) == m) + LostIn(Step(s, acts[0]), acts[1..], m)
  }

  function DoubledIn(s: State, acts: seq<Action>, m: Message): nat
    decreases |acts|
  {
    if acts == [] then 0
    else One(Doubles(s, acts[0]) && Its(s, acts[0]) == m) + DoubledIn(Step(s, acts[0]), acts[1..], m)
  }

  function PublishedIn(s: State, acts: seq<Action>, m: Message): nat
    decreases |acts|
  {
    if acts == [] then 0
    else One(Publishes(s, acts[0]) && Its(s, acts[0]) == m) + PublishedIn(Step(s, acts[0]), acts[1..], m)
  }

  // ---------- Every copy is accounted for ----------

  predicate Carries(h: Hand, m: Message) { Holds(h, m) && !(h.Handling? && h.back) }

  predicate Holds(h: Hand, m: Message) { !h.Free? && h.m == m }

  function InHands(hands: seq<Hand>, m: Message): nat {
    if hands == [] then 0 else InHands(hands[..|hands| - 1], m) + One(Carries(hands[|hands| - 1], m))
  }

  function Times(q: seq<Message>, m: Message): nat { multiset(q)[m] }

  /** All copies of a message: queued, in some dispatcher's hands, or with the sender. */
  function Copies(s: State, m: Message): nat {
    Times(s.queue, m) + InHands(s.hands, m) + Times(s.delivered, m)
  }

  lemma {:induction false} HandChanges(hands: seq<Hand>, w: nat, h: Hand, m: Message)
    requires w < |hands|
    ensures InHands(hands[w := h], m) + One(Carries(hands[w], m)) == InHands(hands, m) + One(Carries(h, m))
    decreases |hands|
  {
    var n := |hands| - 1;
    var hands' := hands[w := h];
    if w < n {
      HandChanges(hands[..n], w, h, m);
      assert hands'[..n] == hands[..n][w := h];
    } else {
      assert hands'[..n] == hands[..n];
    }
  }

  lemma QueueChanges(q: seq<Message>, x: Message, m: Message)
    ensures Times(q + [x], m) == Times(q, m) + One(x == m)
    ensures q != [] ==> Times(q, m) == One(q[0] == m) + Times(q[1..], m)
  {
    if q != [] {
      assert q == [q[0]] + q[1..];
    }
  }

  /** One step of anyone keeps the balance. */
  lemma StepKeepsAll(s: State, a: Action, m: Message)
    ensures Copies(Step(s, a), m) + One(Loses(s, a) && Its(s, a) == m)
            == Copies(s, m) + One(Publishes(s, a) && Its(s, a) == m) + One(Doubles(s, a) && Its(s, a) == m)
  {
    if Concerns(s, a) {
      if a.Publish? {
        QueueChanges(s.queue, a.m, m);
      } else {
        ListsChange(s, a, m);
        HandsChange(s, a, m);
        HandBalance(s, a, m);
      }
    }
  }

  /** What a dispatcher's step adds to the list and to what was delivered. */
  lemma ListsChange(s: State, a: Action, m: Message)
    requires Concerns(s, a) && !a.Publish?
    ensures var s', me := Step(s, a), One(Its(s, a) == m);
            && Times(s'.queue, m) == Times(s.queue, m) + (if Adds(a) then me else 0) - (if Takes(a) then me else 0)
            && Times(s'.delivered, m) == Times(s.delivered, m) + (if Delivers(a) then me else 0)
  {
    QueueChanges(s.queue, Its(s, a), m);
    QueueChanges(s.delivered, Its(s, a), m);
  }

  /** What it changes in the dispatchers' hands. */
  lemma HandsChange(s: State, a: Action, m: Message)
    requires Enabled(s, a) && !a.Publish?
    ensures var s' := Step(s, a);
            && a.w < |s.hands| == |s'.hands|
            && InHands(s'.hands, m) + One(Carries(s.hands[a.w], m))
               == InHands(s.hands, m) + One(Carries(s'.hands[a.w], m))
  {
    var h := Step(s, a).hands[a.w];
    HandChanges(s.hands, a.w, h, m);
    assert Step(s, a).hands == s.hands[a.w := h];
  }

  predicate Takes(a: Action) { a.Pop? && !a.reply.FailedLost? }

  predicate Adds(a: Action) { (a.PutBack? || a.PutAgain?) && !a.reply.FailedLost? }

  predicate Delivers(a: Action) { a.Send? && a.verdict.Accepted? }

  lemma HandBalance(s: State, a: Action, m: Message)
    requires Concerns(s, a) && !a.Publish? && a.w < |s.hands| == |Step(s, a).hands|
    ensures var me := Its(s, a) == m;
            One(Carries(Step(s, a).hands[a.w], m)) + One(me && (Adds(a) || Delivers(a) || Loses(s, a)))
            == One(Carries(s.hands[a.w], m)) + One(me && (Takes(a) || Doubles(s, a)))
  {
  }

  /** Conservation, for any number of dispatchers and publishers and any interleaving: the
      copies there are at the end, with those lost, are those at the start, with those
      published and those doubled. */
  lemma {:induction false} RunKeepsAll(s: State, acts: seq<Action>, m: Message)
    ensures Copies(Exec(s, acts), m) + LostIn(s, acts, m)
            == Copies(s, m) + PublishedIn(s, acts, m) + DoubledIn(s, acts, m)
    decreases |acts|
  {
    if acts != [] {
      StepKeepsAll(s, acts[0], m);
      RunKeepsAll(Step(s, acts[0]), acts[1..], m);
    }
  }

  function Empty(dispatchers: nat): State {
    State([], seq(dispatchers, i => Free), [], {})
  }

  lemma {:induction false} NobodyHolds(hands: seq<Hand>, m: Message)
    requires forall i | 0 <= i < |hands| :: hands[i].Free?
    ensures InHands(hands, m) == 0
  {
    if hands != [] {
      NobodyHolds(hands[..|hands| - 1], m);
    }
  }

  lemma {:induction false} PublishedOnce(s: State, acts: seq<Action>, m: Message)
    ensures PublishedIn(s, acts, m) == One(m !in s.published && m in Exec(s, acts).published)
    ensures s.published <= Exec(s, acts).published
    decreases |acts|
  {
    if acts != [] {
      PublishedOnce(Step(s, acts[0]), acts[1..], m);
    }
  }

  /** A published message exists once, plus the copies doubled, less the copies lost: that is
      how often the sender can have taken it. */
  lemma DeliveredAtMost(dispatchers: nat, acts: seq<Action>, m: Message)
    ensures var s0 := Empty(dispatchers); var s := Exec(s0, acts);
            && Copies(s, m) + LostIn(s0, acts, m) == One(m in s.published) + DoubledIn(s0, acts, m)
            && Times(s.delivered, m) <= One(m in s.published) + DoubledIn(s0, acts, m)
  {
    var s0 := Empty(dispatchers);
    RunKeepsAll(s0, acts, m);
    NobodyHolds(s0.hands, m);
    PublishedOnce(s0, acts, m);
  }

  // ---------- At least once ----------

  /** Somebody still has the message: it is queued, delivered, or in a dispatcher's hands. */
  ghost predicate Held(s: State, m: Message) {
    m in s.queue || m in s.delivered || exists w :: 0 <= w < |s.hands| && Holds(s.hands[w], m)
  }

  /** The step gives a message up that nobody else has: the answer to the pop is lost, the
      sender is killed, or the last put-back does not arrive. */
  ghost predicate LosesLast(s: State, a: Action) {
    && Concerns(s, a)
    && ((a.Pop? && a.reply.FailedApplied?) || (a.Send? && a.verdict.Killed?) || (a.PutAgain? && a.reply.FailedLost?))
    && !Held(Step(s, a), Its(s, a))
  }

  ghost predicate Clean(s: State, acts: seq<Action>)
    decreases |acts|
  {
    acts == [] || (!LosesLast(s, acts[0]) && Clean(Step(s, acts[0]), acts[1..]))
  }

  /** Only published messages exist. */
  ghost predicate Inv(s: State) {
    forall m | Held(s, m) :: m in s.published
  }

  ghost predicate NothingMissing(s: State) {
    forall m <- s.published :: Held(s, m)
  }

  /** The dispatchers' hands but for one. */
  ghost predicate HeldElsewhere(s: State, w: nat, m: Message) {
    exists x :: 0 <= x < |s.hands| && x != w && Holds(s.hands[x], m)
  }

  lemma SplitHands(s: State, w: nat, m: Message)
    requires w < |s.hands|
    ensures Held(s, m) <==> m in s.queue || m in s.delivered || Holds(s.hands[w], m) || HeldElsewhere(s, w, m)
  {
  }

  /** Step by step: somebody has a message afterwards exactly when somebody had it before or
      it is published now, unless the step gives up the last copy. */
  lemma HeldStep(s: State, a: Action, m: Message)
    ensures Held(Step(s, a), m)
            <==> (Held(s, m) || (Publishes(s, a) && m == Its(s, a))) && !(LosesLast(s, a) && m == Its(s, a))
  {
    if Enabled(s, a) {
      QueueHas(s.queue, m);
      if !a.Publish? {
        HandStep(s, a, m);
      }
    }
  }

  lemma QueueHas(q: seq<Message>, m: Message)
    ensures q != [] ==> (m in q <==> m == q[0] || m in q[1..])
  {
    if q != [] {
      assert q == [q[0]] + q[1..];
    }
  }

  lemma HandStep(s: State, a: Action, m: Message)
    requires Enabled(s, a) && !a.Publish?
    ensures Held(Step(s, a), m) <==> Held(s, m) && !(LosesLast(s, a) && m == Its(s, a))
  {
    var s' := Step(s, a);
    assert s'.hands == s.hands[a.w := s'.hands[a.w]];
    SplitHands(s, a.w, m);
    SplitHands(s', a.w, m);
    if HeldElsewhere(s, a.w, m) {
      var x :| 0 <= x < |s.hands| && x != a.w && Holds(s.hands[x], m);
      assert Holds(s'.hands[x], m);
    }
    QueueHas(s.queue, m);
  }

  /** At-least-once delivery in full, for any number of dispatchers and any interleaving: every
      published message is still queued, in somebody's hands or was delivered, if and only if
      no step gives up a last copy. */
  lemma {:induction false} NothingLostIff(s: State, acts: seq<Action>)
    requires Inv(s)
    ensures NothingMissing(Exec(s, acts)) <==> NothingMissing(s) && Clean(s, acts)
    decreases |acts|
  {
    if acts != [] {
      var a, s1 := acts[0], Step(s, acts[0]);
      forall m ensures Held(s1, m) <==> (Held(s, m) || (Publishes(s, a) && m == Its(s, a)))
                                        && !(LosesLast(s, a) && m == Its(s, a)) {
        HeldStep(s, a, m);
      }
      NothingLostIff(s1, acts[1..]);
    }
  }

  /** The command is answered, the sender not killed. */
  predicate Calm(a: Action) {
    if a.Send? then !a.verdict.Killed? else a.reply.Answered?
  }

  predicate NoneBack(s: State) {
    forall i | 0 <= i < |s.hands| :: !(s.hands[i].Handling? && s.hands[i].back)
  }

  /** With every command answered and no killed sender nothing is lost or doubled. */
  lemma {:induction false} ReliableKeepsAll(s: State, acts: seq<Action>, m: Message)
    requires NoneBack(s) && forall a <- acts :: Calm(a)
    ensures Copies(Exec(s, acts), m) == Copies(s, m) + PublishedIn(s, acts, m)
    decreases |acts|
  {
    if acts != [] {
      assert Calm(acts[0]);
      StepKeepsAll(s, acts[0], m);
      ReliableKeepsAll(Step(s, acts[0]), acts[1..], m);
    }
  }

  /** One dispatcher with message `m` in the list. */
  function Once(m: Message): State { State([m], [Free], [], {m}) }

  lemma {:induction false} ExecThree(s: State, a: Action, b: Action, rest: seq<Action>)
    ensures Exec(s, [a, b] + rest) == Exec(Step(Step(s, a), b), rest)
    ensures |rest| == 1 ==> Exec(s, [a, b] + rest) == Step(Step(Step(s, a), b), rest[0])
  {
    assert ([a, b] + rest)[1..] == [b] + rest && ([b] + rest)[1..] == rest;
    assert Exec(Step(s, a), [b] + rest) == Exec(Step(Step(s, a), b), rest);
    if |rest| == 1 {
      assert rest[1..] == [];
    }
  }

  /** Each kind of failure does it: a lost answer to a pop, a killed sender and a lost put-back
      each lose the message; a put-back whose answer is lost doubles it. */
  lemma FailuresLoseAndDouble(m: Message)
    ensures Exec(Once(m), [Pop(0, FailedApplied)]).queue == []
    ensures !Held(Step(Once(m), Pop(0, FailedApplied)), m)
    ensures !Held(Exec(Once(m), [Pop(0, Answered), Send(0, Killed)] + []), m)
    ensures !Held(Exec(Once(m), [Pop(0, Answered), Send(0, Raised)] + [PutAgain(0, FailedLost)]), m)
    ensures Exec(Once(m), [Pop(0, Answered), Send(0, Refused)] + [PutBack(0, FailedApplied)] + [PutAgain(0, Answered)])
              .queue == [m, m]
  {
    var s := Once(m);
    assert [m][1..] == [] && [Pop(0, FailedApplied)][1..] == [];
    ExecThree(s, Pop(0, Answered), Send(0, Killed), []);
    ExecThree(s, Pop(0, Answered), Send(0, Raised), [PutAgain(0, FailedLost)]);
    ExecThree(s, Pop(0, Answered), Send(0, Refused), [PutBack(0, FailedApplied)]);
    ExecAppend(s, [Pop(0, Answered), Send(0, Refused)] + [PutBack(0, FailedApplied)], [PutAgain(0, Answered)]);
    assert [PutAgain(0, Answered)][1..] == [];
    assert [] + [m] + [m] == [m, m];
  }

  // ---------- Order ----------

  /** The messages in the order in which the sender gets them. */
  function Line(s: State): seq<Message>
    requires |s.hands| == 1
  {
    s.delivered + (if s.hands[0].Free? then [] else [s.hands[0].m]) + s.queue
  }

  function Arrivals(s: State, acts: seq<Action>): seq<Message>
    decreases |acts|
  {
    if acts == [] then []
    else (if Publishes(s, acts[0]) then [acts[0].m] else []) + Arrivals(Step(s, acts[0]), acts[1..])
  }

  /** One dispatcher, whatever is published meanwhile: if the sender accepts everything and
      every command of the dispatcher is answered, messages leave in the order published. */
  lemma {:induction false} InOrder(s: State, acts: seq<Action>)
    requires |s.hands| == 1 && (s.hands[0].Free? || s.hands[0].Sending?)
    requires forall a <- acts :: a.Publish? || (Calm(a) && (a.Send? ==> a.verdict.Accepted?))
    ensures |Exec(s, acts).hands| == 1 && Line(Exec(s, acts)) == Line(s) + Arrivals(s, acts)
    decreases |acts|
  {
    if acts != [] {
      LineStep(s, acts[0]);
      InOrder(Step(s, acts[0]), acts[1..]);
    }
  }

  lemma LineStep(s: State, a: Action)
    requires |s.hands| == 1 && (s.hands[0].Free? || s.hands[0].Sending?)
    requires a.Publish? || (Calm(a) && (a.Send? ==> a.verdict.Accepted?))
    ensures var s' := Step(s, a);
            && |s'.hands| == 1 && (s'.hands[0].Free? || s'.hands[0].Sending?)
            && Line(s') == Line(s) + (if Publishes(s, a) then [a.m] else [])
  {
    if Concerns(s, a) && a.Pop? {
      assert s.queue == [s.queue[0]] + s.queue[1..];
    }
  }

  /** Rounds in which the sender raises. */
  function Rotation(w: nat, rounds: nat): seq<Action> {
    if rounds == 0 then []
    else [Pop(w, Answered), Send(w, Raised)] + [PutAgain(w, Answered)] + Rotation(w, rounds - 1)
  }

  /** A sender that always raises only turns the list round. */
  lemma {:induction false} RaisingRotates(s: State, w: nat, rounds: nat)
    requires w < |s.hands| && s.hands[w].Free? && rounds <= |s.queue|
    ensures Exec(s, Rotation(w, rounds)) == s.(queue := s.queue[rounds..] + s.queue[..rounds])
    decreases rounds
  {
    if rounds > 0 {
      var first := [Pop(w, Answered), Send(w, Raised)] + [PutAgain(w, Answered)];
      ExecAppend(s, first, Rotation(w, rounds - 1));
      ExecThree(s, Pop(w, Answered), Send(w, Raised), [PutAgain(w, Answered)]);
      var s1 := Exec(s, first);
      assert s1.hands == s.hands;
      RaisingRotates(s1, w, rounds - 1);
      assert s1.queue[rounds - 1..] + s1.queue[..rounds - 1] == s.queue[rounds..] + s.queue[..rounds];
    } else {
      assert s.queue[0..] + s.queue[..0] == s.queue;
    }
  }

  /** A refused message goes to the end of the list, a published one too, and a pop takes the
      first; what the sender takes is added to what it took before. */
  lemma WhereMessagesGo(s: State, w: nat, m: Message)
    requires w < |s.hands|
    ensures s.hands[w].Free? && s.queue != [] ==>
              Step(s, Pop(w, Answered)) == s.(queue := s.queue[1..], hands := s.hands[w := Sending(s.queue[0])])
    ensures s.hands[w] == Sending(m) ==>
              && Step(s, Send(w, Accepted)) == s.(hands := s.hands[w := Free], delivered := s.delivered + [m])
              && Step(s, Send(w, Refused)) == s.(hands := s.hands[w := Returning(m)])
              && Step(s, Send(w, Raised)) == s.(hands := s.hands[w := Handling(m, false)])
    ensures s.hands[w] == Returning(m) ==>
              && Step(s, PutBack(w, Answered)) == s.(queue := s.queue + [m], hands := s.hands[w := Free])
              && Step(s, PutBack(w, FailedApplied))
                 == s.(queue := s.queue + [m], hands := s.hands[w := Handling(m, true)])
              && Step(s, PutBack(w, FailedLost)) == s.(hands := s.hands[w := Handling(m, false)])
    ensures s.hands[w].Handling? && s.hands[w].m == m ==>
              Step(s, PutAgain(w, Answered)) == s.(queue := s.queue + [m], hands := s.hands[w := Free])
    ensures m !in s.published ==>
              Step(s, Publish(m, Answered)) == s.(queue := s.queue + [m], published := s.published + {m})
  {
  }

  // ---------- The loop of one dispatcher ----------

  /** How a call of dispatch ends: after its batch or on an empty list, by a refusal, by a
      Redis error, or by the sender's exit. */
  datatype Ending = Going | Stopped | Errored | Exited

  /** What an action of a dispatcher means for its loop. */
  function EndingOf(a: Action): Ending {
    match a
    case Pop(_, reply) => if reply.Answered? then Going else Errored
    case Send(_, verdict) => if verdict.Killed? then Exited else Going
    case PutBack(_, reply) => if reply.Answered? then Stopped else Going
    case PutAgain(_, reply) => if reply.Answered? then Going else Errored
    case Publish(_, _) => Going
  }

  /** What the world does at the n-th command or call of this dispatcher: the others' actions
      before it, and how it ends. */
  datatype World = World(others: nat -> seq<Action>, reply: nat -> Reply, verdict: nat -> Verdict)

  ghost predicate Foreign(world: World, w: nat) {
    forall n: nat, i: nat {:trigger world.others(n)[i]} :: i < |world.others(n)| ==> !By(world.others(n)[i], w)
  }

  function Front(own: seq<Action>): seq<Action>
    requires own != []
  {
    own[..|own| - 1]
  }

  function Back(own: seq<Action>): Action
    requires own != []
  {
    own[|own| - 1]
  }

  /** The run in which this dispatcher, from its n-th call on, does `own` and others act in
      between. */
  function Trace(world: World, n: nat, own: seq<Action>): seq<Action> {
    if own == [] then [] else Trace(world, n, Front(own)) + world.others(n + |own| - 1) + [Back(own)]
  }

  /** Every action of the dispatcher happens where its program stands, ends as the world
      says, and none but the last ends the loop. */
  predicate Legal(s: State, world: World, n: nat, w: nat, own: seq<Action>)
    decreases |own|
  {
    own == [] ||
    var a, k := Back(own), n + |own| - 1;
    && Legal(s, world, n, w, Front(own)) && Last(Front(own)) == Going
    && By(a, w) && (if a.Send? then a.verdict == world.verdict(k) else a.reply == world.reply(k))
    && Enabled(Exec(Exec(s, Trace(world, n, Front(own))), world.others(k)), a)
  }

  function Pops(own: seq<Action>): nat { if own == [] then 0 else Pops(Front(own)) + One(Back(own).Pop?) }

  function Accepts(own: seq<Action>): nat {
    if own == [] then 0 else Accepts(Front(own)) + One(Back(own).Send? && Back(own).verdict.Accepted?)
  }

  /** After this the loop goes on: the pop or the handler's put-back was answered, the sender
      was not killed, or the put-back of a refused message raised, which the handler catches. */
  predicate GoesOn(a: Action) {
    match a
    case Pop(_, reply) => reply.Answered?
    case Send(_, verdict) => !verdict.Killed?
    case PutBack(_, reply) => !reply.Answered?
    case PutAgain(_, reply) => reply.Answered?
    case Publish(_, _) => true
  }

  lemma {:induction false} EarlierGoOn(s: State, world: World, n: nat, w: nat, own: seq<Action>)
    requires Legal(s, world, n, w, own)
    ensures forall i | 0 <= i < |own| - 1 :: GoesOn(own[i])
    ensures Last(own).Going? <==> own == [] || GoesOn(own[|own| - 1])
    decreases |own|
  {
    if |own| > 1 {
      EarlierGoOn(s, world, n, w, Front(own));
      forall i | 0 <= i < |own| - 1 ensures GoesOn(own[i]) {
        assert own[i] == Front(own)[i];
      }
    }
  }

  lemma {:induction false} PopsAreCounted(own: seq<Action>)
    ensures Pops(own) == |set i | 0 <= i < |own| && own[i].Pop?|
  {
    if own != [] {
      var n, front := |own| - 1, Front(own);
      PopsAreCounted(front);
      assert (set i | 0 <= i < |own| && own[i].Pop?)
          == (set i | 0 <= i < n && front[i].Pop?) + if own[n].Pop? then {n} else {};
    }
  }

  lemma {:induction false} AcceptsAreCounted(own: seq<Action>)
    ensures Accepts(own) == |set i | 0 <= i < |own| && own[i].Send? && own[i].verdict.Accepted?|
  {
    if own != [] {
      var n, front := |own| - 1, Front(own);
      AcceptsAreCounted(front);
      assert (set i | 0 <= i < |own| && own[i].Send? && own[i].verdict.Accepted?)
          == (set i | 0 <= i < n && front[i].Send? && front[i].verdict.Accepted?)
             + if own[n].Send? && own[n].verdict.Accepted? then {n} else {};
    }
  }

  function Last(own: seq<Action>): Ending {
    if own == [] then Going else EndingOf(Back(own))
  }

  lemma {:induction false} ForeignRun(s: State, w: nat, acts: seq<Action>)
    requires w < |s.hands| && forall a <- acts :: !By(a, w)
    ensures var s' := Exec(s, acts); |s'.hands| == |s.hands| && s'.hands[w] == s.hands[w]
    decreases |acts|
  {
    if acts != [] {
      assert !By(acts[0], w);
      ForeignRun(Step(s, acts[0]), w, acts[1..]);
    }
  }

  /** Others' actions leave what this dispatcher can do next. */
  lemma StillEnabled(s: State, s1: State, a: Action, w: nat)
    requires By(a, w) && Enabled(s, a) && |s1.hands| == |s.hands| && w < |s.hands| && s1.hands[w] == s.hands[w]
    ensures Enabled(s1, a)
  {
  }

  /** A run goes on with others' actions and one of this dispatcher. */
  lemma Extend(s: State, world: World, n: nat, own: seq<Action>, a: Action)
    ensures Front(own + [a]) == own && Back(own + [a]) == a
    ensures Exec(s, Trace(world, n, own + [a])) == Step(Exec(Exec(s, Trace(world, n, own)), world.others(n + |own|)), a)
  {
    var others := world.others(n + |own|);
    assert Front(own + [a]) == own;
    ExecAppend(s, Trace(world, n, own), others);
    ExecAppend(s, Trace(world, n, own) + others, [a]);
    assert [a][1..] == [];
  }

  /** So do its legality and its counts. */
  lemma LegalExtends(s: State, s1: State, world: World, n: nat, w: nat, own: seq<Action>, a: Action)
    requires Legal(s, world, n, w, own) && Last(own) == Going && By(a, w)
    requires if a.Send? then a.verdict == world.verdict(n + |own|) else a.reply == world.reply(n + |own|)
    requires s1 == Exec(Exec(s, Trace(world, n, own)), world.others(n + |own|)) && Enabled(s1, a)
    ensures var own' := own + [a];
            && Legal(s, world, n, w, own') && Last(own') == EndingOf(a) && Pops(own') == Pops(own) + One(a.Pop?)
            && Accepts(own') == Accepts(own) + One(a.Send? && a.verdict.Accepted?)
  {
    assert Front(own + [a]) == own && Back(own + [a]) == a;
  }

  /** The list and everybody using it. */
  class Broker {
    var s: State
    constructor (s: State)
      ensures this.s == s
    {
      this.s := s;
    }
  }

  class TransactionalOutbox {
    const me: nat
    const world: World
    var calls: nat

    constructor (me: nat, world: World)
      ensures this.me == me && this.world == world
    {
      this.me, this.world, this.calls := me, world, 0;
    }

    /** True means that the message is queued; false leaves open whether it is. */
    method Publish(b: Broker, m: Message, reply: Reply) returns (ok: bool)
      requires m !in b.s.published
      modifies b
      ensures b.s == Step(old(b.s), Action.Publish(m, reply))
      ensures ok ==> b.s.queue == old(b.s.queue) + [m]
      ensures ok <==> reply.Answered?
    {
      b.s := Step(b.s, Action.Publish(m, reply));
      ok := reply.Answered?;
    }

    ghost predicate At(b: Broker, hand: Hand)
      reads b
    {
      me < |b.s.hands| && b.s.hands[me] == hand
    }

    /** The call so far: from its n-th command on this dispatcher has done `own`. */
    ghost predicate Ran(b: Broker, s0: State, n: nat, own: seq<Action>)
      reads this, b
    {
      && Foreign(world, me) && calls == n + |own|
      && b.s == Exec(s0, Trace(world, n, own)) && Legal(s0, world, n, me, own)
    }

    ghost predicate Runs(b: Broker, s0: State, n: nat, own: seq<Action>)
      reads this, b
    {
      Ran(b, s0, n, own) && Last(own) == Going
    }

    /** Others act, then this dispatcher's next command or call. */
    method Do(b: Broker, a: Action, ghost s0: State, ghost n: nat, ghost own: seq<Action>)
      returns (ghost own': seq<Action>, ghost s1: State)
      requires Runs(b, s0, n, own) && me < |b.s.hands| && By(a, me) && Enabled(b.s, a)
      requires if a.Send? then a.verdict == world.verdict(calls) else a.reply == world.reply(calls)
      modifies b, this
      ensures Ran(b, s0, n, own') && own' == own + [a] && Last(own') == EndingOf(a)
      ensures Pops(own') == Pops(own) + One(a.Pop?)
      ensures Accepts(own') == Accepts(own) + One(a.Send? && a.verdict.Accepted?)
      ensures b.s == Step(s1, a) && me < |s1.hands| && s1.hands[me] == old(b.s.hands[me])
    {
      var others := world.others(calls);
      ForeignRun(b.s, me, others);
      s1, own' := Exec(b.s, others), own + [a];
      StillEnabled(b.s, s1, a, me);
      Extend(s0, world, n, own, a);
      LegalExtends(s0, s1, world, n, me, own, a);
      b.s := Exec(b.s, others);
      b.s := Step(b.s, a);
      calls := calls + 1;
    }

    /** `sent` counts the messages the sender accepted; it is returned unless an error or exit
        leaves the method. A refusal, an error or an exit ends the batch, an exception of the
        sender does not. */
    method Dispatch(b: Broker, batch: nat) returns (sent: nat, ending: Ending, ghost own: seq<Action>)
      requires At(b, Free) && Foreign(world, me)
      modifies b, this
      ensures At(b, Free) && Ran(b, old(b.s), old(calls), own) && ending == Last(own)
      ensures sent == |set i | 0 <= i < |own| && own[i].Send? && own[i].verdict.Accepted?|
      ensures var pops := |set i | 0 <= i < |own| && own[i].Pop?|;
              pops <= batch && (ending == Going ==> pops == batch || b.s.queue == [])
      ensures forall i | 0 <= i < |own| - 1 :: GoesOn(own[i])
      ensures ending.Going? <==> own == [] || GoesOn(own[|own| - 1])
      ensures ending.Stopped? <==> own != [] && own[|own| - 1].PutBack? && own[|own| - 1].reply.Answered?
      ensures ending.Exited? <==> own != [] && own[|own| - 1].Send? && own[|own| - 1].verdict.Killed?
    {
      sent, ending, own := RunBatch(b, batch);
      PopsAreCounted(own);
      AcceptsAreCounted(own);
      EarlierGoOn(old(b.s), world, old(calls), me, own);
    }

    method RunBatch(b: Broker, batch: nat) returns (sent: nat, ending: Ending, ghost own: seq<Action>)
      requires At(b, Free) && Foreign(world, me)
      modifies b, this
      ensures At(b, Free) && Ran(b, old(b.s), old(calls), own) && ending == Last(own)
      ensures sent == Accepts(own) && Pops(own) <= batch
      ensures ending == Going ==> Pops(own) == batch || b.s.queue == []
    {
      own, sent, ending := [], 0, Going;
      for i := 0 to batch
        invariant At(b, Free) && Runs(b, old(b.s), old(calls), own) && ending == Going
        invariant sent == Accepts(own) && i == Pops(own)
      {
        var empty, accepted := false, false;
        empty, ending, own := PopOne(b, old(b.s), old(calls), own);
        if empty {
          break;
        }
        if ending == Going {
          accepted, ending, own := SendOne(b, old(b.s), old(calls), own);
        }
        if accepted {
          sent := sent + 1;
        }
        if ending != Going {
          return;
        }
      }
    }

    method PopOne(b: Broker, ghost s0: State, ghost n: nat, ghost own: seq<Action>)
      returns (empty: bool, ending: Ending, ghost own': seq<Action>)
      requires At(b, Free) && Runs(b, s0, n, own)
      modifies b, this
      ensures Ran(b, s0, n, own') && ending == Last(own')
      ensures Pops(own') == Pops(own) + 1 && Accepts(own') == Accepts(own)
      ensures if empty || ending != Going then At(b, Free) else me < |b.s.hands| && b.s.hands[me].Sending?
      ensures empty ==> ending == Going && b.s.queue == []
    {
      var reply := world.reply(calls);
      ghost var s1;
      own', s1 := Do(b, Pop(me, reply), s0, n, own);
      ending := if reply.Answered? then Going else Errored;
      empty := reply.Answered? && b.s.hands[me].Free?;
    }

    /** Hand the popped message to the sender, and put it back if it was not taken. */
    method SendOne(b: Broker, ghost s0: State, ghost n: nat, ghost own: seq<Action>)
      returns (accepted: bool, ending: Ending, ghost own': seq<Action>)
      requires me < |b.s.hands| && b.s.hands[me].Sending? && Runs(b, s0, n, own)
      modifies b, this
      ensures At(b, Free) && Ran(b, s0, n, own') && ending == Last(own')
      ensures Pops(own') == Pops(own) && Accepts(own') == Accepts(own) + One(accepted)
    {
      var verdict := world.verdict(calls);
      ghost var s1;
      own', s1 := Do(b, Send(me, verdict), s0, n, own);
      accepted, ending := verdict.Accepted?, if verdict.Killed? then Exited else Going;
      var raises := verdict.Raised?;
      if verdict.Refused? {
        ending, raises, own' := Return(b, s0, n, own');
      }
      if raises {
        ending, own' := Handle(b, s0, n, own');
      }
    }

    /** Put a refused message back; the batch ends unless that raises. */
    method Return(b: Broker, ghost s0: State, ghost n: nat, ghost own: seq<Action>)
      returns (ending: Ending, raises: bool, ghost own': seq<Action>)
      requires me < |b.s.hands| && b.s.hands[me].Returning? && Runs(b, s0, n, own)
      modifies b, this
      ensures Ran(b, s0, n, own') && ending == Last(own') && raises == (ending == Going)
      ensures Pops(own') == Pops(own) && Accepts(own') == Accepts(own)
      ensures if raises then me < |b.s.hands| && b.s.hands[me].Handling? else At(b, Free)
    {
      var reply := world.reply(calls);
      ghost var s1;
      own', s1 := Do(b, PutBack(me, reply), s0, n, own);
      raises := !reply.Answered?;
      ending := if raises then Going else Stopped;
    }

    /** The exception handler. */
    method Handle(b: Broker, ghost s0: State, ghost n: nat, ghost own: seq<Action>)
      returns (ending: Ending, ghost own': seq<Action>)
      requires me < |b.s.hands| && b.s.hands[me].Handling? && Runs(b, s0, n, own)
      modifies b, this
      ensures At(b, Free) && Ran(b, s0, n, own') && ending == Last(own')
      ensures Pops(own') == Pops(own) && Accepts(own') == Accepts(own)
    {
      var reply := world.reply(calls);
      ghost var s1;
      own', s1 := Do(b, PutAgain(me, reply), s0, n, own);
      ending := if reply.Answered? then Going else Errored;
    }
  }
}
