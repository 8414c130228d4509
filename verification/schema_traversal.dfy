/** The breadth-first traversal as a transition on values: the waiting nodes, what each
    result dictionary contains so far, and the top-level result maps. */
module SchemaTraversal {
  import opened SchemaExtraction

  type Rel = map<string, seq<ResultDict>>

  datatype Item = Item(node: SchemaTree, asked: Asked)

  datatype State = State(queue: seq<Item>, rels: map<ResultDict, Rel>, tops: seq<Rel>)

  function Concat<T>(lists: seq<seq<T>>): seq<T> {
    if lists == [] then [] else Concat(lists[..|lists| - 1]) + lists[|lists| - 1]
  }

  predicate NoDup<T(==)>(s: seq<T>) {
    forall i, j | 0 <= i < j < |s| :: s[i] != s[j]
  }

  lemma {:induction false} ConcatMember<T>(lists: seq<seq<T>>, x: T)
    ensures x in Concat(lists) <==> exists i :: 0 <= i < |lists| && x in lists[i]
  {
    if lists != [] {
      var n := |lists| - 1;
      ConcatMember(lists[..n], x);
      if x in lists[n] {
        assert x in lists[n];
      }
      if x in Concat(lists[..n]) {
        var i :| 0 <= i < n && x in lists[..n][i];
        assert x in lists[i];
      }
    }
  }

  function Lengths<T>(lists: seq<seq<T>>): nat {
    if lists == [] then 0 else Lengths(lists[..|lists| - 1]) + |lists[|lists| - 1]|
  }

  /** Nothing is lost and the order is kept: entry j of list i comes after all lists before. */
  lemma {:induction false} ConcatAt<T>(lists: seq<seq<T>>, i: nat, j: nat)
    requires i < |lists| && j < |lists[i]|
    ensures |Concat(lists)| == Lengths(lists)
    ensures Lengths(lists[..i]) + j < |Concat(lists)| && Concat(lists)[Lengths(lists[..i]) + j] == lists[i][j]
  {
    var n := |lists| - 1;
    ConcatLength(lists);
    if i < n {
      ConcatAt(lists[..n], i, j);
      assert lists[..n][..i] == lists[..i];
    } else {
      ConcatLength(lists[..n]);
    }
  }

  lemma {:induction false} ConcatLength<T>(lists: seq<seq<T>>)
    ensures |Concat(lists)| == Lengths(lists)
  {
    if lists != [] {
      ConcatLength(lists[..|lists| - 1]);
    }
  }

  function Prefixes(env: Env, ls: seq<ResultDict>): seq<string> {
    seq(|ls|, i requires 0 <= i < |ls| => Connect(env, ls[i].raw.text))
  }

  /** Storing a list under a name: an empty list is skipped, an existing one extended. */
  function Attach(m: Rel, name: string, ls: seq<ResultDict>): Rel {
    if ls == [] then m
    else if name in m then m[name := m[name] + ls]
    else m[name := ls]
  }

  /** The parents handed to a node's children are read back from where `ls` was stored. */
  function HandedParents(m: Rel, name: string, ls: seq<ResultDict>): seq<ResultDict> {
    var m' := Attach(m, name, ls);
    if name in m' then m'[name] else []
  }

  /** Prefixes are built from `ls` alone, so parents and prefixes line up exactly when
      the name was not in use: sibling names must be distinct. */
  lemma AlignedIffNameUnused(env: Env, m: Rel, name: string, ls: seq<ResultDict>)
    ensures |HandedParents(m, name, ls)| == |Prefixes(env, ls)| <==> name !in m || m[name] == []
    ensures name !in m ==> HandedParents(m, name, ls) == ls
  {
  }

  /** In later stages the parents are read back from all parent dictionaries in turn. */
  function ReadBack(ms: seq<Rel>, name: string, lists: seq<seq<ResultDict>>): seq<ResultDict>
    requires |ms| == |lists|
  {
    if ms == [] then []
    else ReadBack(ms[..|ms| - 1], name, lists[..|ms| - 1]) + HandedParents(ms[|ms| - 1], name, lists[|ms| - 1])
  }

  predicate Unused(m: Rel, name: string) { name !in m || m[name] == [] }

  /** There, too, parents and prefixes line up exactly when no parent dictionary had the name
      in use. */
  lemma {:induction false} AlignedLaterIff(env: Env, ms: seq<Rel>, name: string, lists: seq<seq<ResultDict>>)
    requires |ms| == |lists|
    ensures |ReadBack(ms, name, lists)| >= |Concat(lists)|
    ensures |ReadBack(ms, name, lists)| == |Prefixes(env, Concat(lists))|
       <==> forall i | 0 <= i < |ms| :: Unused(ms[i], name)
    ensures (forall i | 0 <= i < |ms| :: name !in ms[i]) ==> ReadBack(ms, name, lists) == Concat(lists)
  {
    if ms != [] {
      var n := |ms| - 1;
      AlignedLaterIff(env, ms[..n], name, lists[..n]);
      AlignedIffNameUnused(env, ms[n], name, lists[n]);
      assert (forall i | 0 <= i < |ms| :: Unused(ms[i], name))
             <==> (forall i | 0 <= i < n :: Unused(ms[..n][i], name)) && Unused(ms[n], name);
    }
  }

  // ---------- Invariant ----------

  /** `ls` are fresh dictionaries for the answers to `ex`, made for schema node `c`. */
  ghost predicate Answered(env: Env, ls: seq<ResultDict>, ex: Example, c: Schema) {
    && |ls| == |env.answers(ex)|
    && forall j | 0 <= j < |ls| ::
         && ls[j].raw == env.answers(ex)[j] && ls[j].k == ex.k
         && ls[j].path == ex.path + [(ex.name, j)] && ls[j].shape == c
  }

  /** The entry for schema node `c` in `m` is final. */
  ghost predicate Settled(env: Env, st: State, m: Rel, ex: Example, c: Schema) {
    if env.answers(ex) == [] then c.name !in m
    else c.name in m && Answered(env, m[c.name], ex, c) && forall x <- m[c.name] :: x in st.rels
  }

  ghost predicate Pending(st: State, o: ResultDict, c: Schema) {
    exists a :: 0 <= a < |st.queue| && Waits(st.queue[a], o) && st.queue[a].node.shape == c
  }

  ghost predicate Waits(it: Item, o: ResultDict) {
    it.asked.Asked? && o.k < |it.asked.parents| && o in it.asked.parents[o.k]
  }

  ghost predicate PendingTop(st: State, c: Schema) {
    exists a :: 0 <= a < |st.queue| && st.queue[a].asked.NotSet? && st.queue[a].node.shape == c
  }

  ghost predicate EntryOk(env: Env, st: State, o: ResultDict, c: Schema)
    requires o in st.rels && o.k < |env.datas|
  {
    || (Pending(st, o, c) && c.name !in st.rels[o])
    || Settled(env, st, st.rels[o], ChildExample(env, o.k, o.path, o.raw.text, c.name), c)
  }

  ghost predicate ObjectOk(env: Env, st: State, o: ResultDict)
    requires o in st.rels
  {
    && o.k < |env.datas| && DistinctSiblings(o.shape)
    && (forall name <- st.rels[o] :: exists c :: c in o.shape.children && c.name == name)
    && forall c <- o.shape.children :: EntryOk(env, st, o, c)
  }

  ghost predicate TopOk(env: Env, root: Schema, st: State, k: nat)
    requires k < |env.datas| && k < |st.tops|
  {
    && (forall name <- st.tops[k] :: exists c :: c in root.children && c.name == name)
    && forall c <- root.children ::
         || (PendingTop(st, c) && c.name !in st.tops[k])
         || Settled(env, st, st.tops[k], RootExample(env, k, c.name), c)
  }

  /** What a waiting node was handed: entry i of `prefix` belongs to entry i of
      `parent_relations`, text by text. */
  ghost predicate ItemOk(env: Env, root: Schema, st: State, it: Item) {
    && it.node.WellFormed() && DistinctSiblings(it.node.shape)
    && match it.asked
       case NotSet =>
         it.node.shape in root.children && forall k | 0 <= k < |st.tops| :: it.node.name !in st.tops[k]
       case Asked(prefix, parents) =>
         && |prefix| == |parents| == |env.datas|
         && forall k | 0 <= k < |env.datas| ::
              && prefix[k] == Prefixes(env, parents[k]) && NoDup(parents[k])
              && forall o <- parents[k] ::
                   && o in st.rels && o.k == k && it.node.shape in o.shape.children
                   && it.node.name !in st.rels[o]
  }

  /** Two waiting nodes never write the same entry of the same dictionary. */
  ghost predicate Apart(a: Item, b: Item) {
    && (a.asked.NotSet? && b.asked.NotSet? ==> a.node.name != b.node.name)
    && (a.node.name == b.node.name && a.asked.Asked? ==>
         forall k | 0 <= k < |a.asked.parents| :: forall o <- a.asked.parents[k] :: !Waits(b, o))
  }

  ghost predicate Inv(env: Env, root: Schema, st: State) {
    && |st.tops| == |env.datas| && DistinctSiblings(root)
    && (forall a | 0 <= a < |st.queue| :: ItemOk(env, root, st, st.queue[a]))
    && (forall a, b | 0 <= a < b < |st.queue| :: Apart(st.queue[a], st.queue[b]))
    && (forall o <- st.rels :: ObjectOk(env, st, o))
    && forall k | 0 <= k < |env.datas| :: TopOk(env, root, st, k)
  }

  // ---------- One iteration of the loop ----------

  ghost predicate AnswersOk(env: Env, st: State, it: Item, lists: seq<seq<seq<ResultDict>>>) {
    && |lists| == |env.datas|
    && (forall k | 0 <= k < |lists| ::
         && NoDup(Concat(lists[k]))
         && (forall i | 0 <= i < |lists[k]| :: forall x <- lists[k][i] :: x !in st.rels))
    && match it.asked
       case NotSet =>
         forall k | 0 <= k < |lists| ::
           |lists[k]| == 1 && Answered(env, lists[k][0], RootExample(env, k, it.node.name), it.node.shape)
       case Asked(_, parents) =>
         && |parents| == |lists|
         && forall k | 0 <= k < |lists| ::
              && |lists[k]| == |parents[k]|
              && forall i | 0 <= i < |lists[k]| ::
                   Answered(env, lists[k][i],
                            ChildExample(env, k, parents[k][i].path, parents[k][i].raw.text, it.node.name),
                            it.node.shape)
  }

  function News(lists: seq<seq<seq<ResultDict>>>): set<ResultDict> {
    set k, x | 0 <= k < |lists| && x in Concat(lists[k]) :: x
  }

  function HandDown(env: Env, lists: seq<seq<seq<ResultDict>>>): Asked {
    Asked(seq(|lists|, k requires 0 <= k < |lists| => Prefixes(env, Concat(lists[k]))),
          seq(|lists|, k requires 0 <= k < |lists| => Concat(lists[k])))
  }

  ghost predicate Iteration(env: Env, st: State, st': State, lists: seq<seq<seq<ResultDict>>>)
    requires st.queue != [] && |st.tops| == |env.datas|
  {
    var it := st.queue[0];
    && AnswersOk(env, st, it, lists)
    && st'.queue == st.queue[1..] + seq(|it.node.children|, i requires 0 <= i < |it.node.children| =>
                                          Item(it.node.children[i], HandDown(env, lists)))
    && st'.rels.Keys == st.rels.Keys + News(lists)
    && (forall o <- News(lists) :: o in st'.rels && st'.rels[o] == map[])
    && (forall o <- st.rels :: !Waits(it, o) ==> o in st'.rels && st'.rels[o] == st.rels[o])
    && (it.asked.Asked? ==>
         && |it.asked.parents| == |lists|
         && st'.tops == st.tops
         && forall k, i | 0 <= k < |lists| && 0 <= i < |lists[k]| && i < |it.asked.parents[k]| ::
              var o := it.asked.parents[k][i];
              o in st.rels && o in st'.rels && st'.rels[o] == Attach(st.rels[o], it.node.name, lists[k][i]))
    && (it.asked.NotSet? ==>
         && |st'.tops| == |st.tops|
         && forall k | 0 <= k < |lists| && |lists[k]| == 1 ::
              st'.tops[k] == Attach(st.tops[k], it.node.name, lists[k][0]))
  }

  lemma SettledGrows(env: Env, st: State, st': State, m: Rel, ex: Example, c: Schema)
    requires Settled(env, st, m, ex, c)
    requires forall o <- st.rels :: o in st'.rels
    ensures Settled(env, st', m, ex, c)
  {
  }

  /** Attaching a list under another name leaves a settled entry settled. */
  lemma SettledAttach(env: Env, st: State, m: Rel, ex: Example, c: Schema, name: string, ls: seq<ResultDict>)
    requires Settled(env, st, m, ex, c) && name != c.name
    ensures Settled(env, st, Attach(m, name, ls), ex, c)
  {
  }

  lemma NewObjects(env: Env, st: State, st': State, lists: seq<seq<seq<ResultDict>>>, k: nat, i: nat)
    requires st.queue != [] && |st.tops| == |env.datas| && Iteration(env, st, st', lists)
    requires k < |lists| && i < |lists[k]|
    ensures forall x <- lists[k][i] :: x in News(lists) && x in st'.rels
  {
    forall x <- lists[k][i] ensures x in News(lists) {
      ConcatMember(lists[k], x);
    }
  }

  /** A dictionary created in this iteration belongs to the node just processed. */
  lemma NewObjectFacts(env: Env, st: State, st': State, lists: seq<seq<seq<ResultDict>>>, o: ResultDict, k: nat)
    requires st.queue != [] && |st.tops| == |env.datas| && Iteration(env, st, st', lists)
    requires k < |lists| && o in Concat(lists[k])
    ensures o !in st.rels && o.k == k && o.shape == st.queue[0].node.shape
  {
    ConcatMember(lists[k], o);
    var i :| 0 <= i < |lists[k]| && o in lists[k][i];
    var j :| 0 <= j < |lists[k][i]| && lists[k][i][j] == o;
    ListsBelong(env, st, st.queue[0], lists, k, i);
    assert lists[k][i][j].k == k;
  }

  /** Every dictionary of an answer is new and carries its text and its schema node. */
  lemma ListsBelong(env: Env, st: State, it: Item, lists: seq<seq<seq<ResultDict>>>, k: nat, i: nat)
    requires AnswersOk(env, st, it, lists) && k < |lists| && i < |lists[k]|
    ensures forall j | 0 <= j < |lists[k][i]| ::
              lists[k][i][j] !in st.rels && lists[k][i][j].k == k && lists[k][i][j].shape == it.node.shape
  {
    var ls := lists[k][i];
    if it.asked.NotSet? {
      assert Answered(env, lists[k][0], RootExample(env, k, it.node.name), it.node.shape);
    } else {
      assert Answered(env, ls,
                      ChildExample(env, k, it.asked.parents[k][i].path, it.asked.parents[k][i].raw.text, it.node.name),
                      it.node.shape);
    }
    forall j | 0 <= j < |ls| ensures ls[j] !in st.rels {
      assert ls[j] in ls;
    }
  }

  /** The list attached to an old dictionary: its own answers when it waits for the
      processed node, nothing otherwise. */
  lemma AttachedList(env: Env, root: Schema, st: State, st': State, lists: seq<seq<seq<ResultDict>>>, o: ResultDict)
    returns (ls: seq<ResultDict>)
    requires st.queue != [] && |st.tops| == |env.datas| && Iteration(env, st, st', lists)
    requires ItemOk(env, root, st, st.queue[0]) && o in st.rels && o.k < |env.datas|
    ensures o in st'.rels && st'.rels[o] == Attach(st.rels[o], st.queue[0].node.name, ls)
    ensures forall x <- ls :: x in st'.rels
    ensures if Waits(st.queue[0], o)
            then Answered(env, ls, ChildExample(env, o.k, o.path, o.raw.text, st.queue[0].node.name),
                          st.queue[0].node.shape)
            else ls == []
  {
    var it := st.queue[0];
    ls := [];
    if Waits(it, o) {
      var i :| 0 <= i < |it.asked.parents[o.k]| && it.asked.parents[o.k][i] == o;
      ls := lists[o.k][i];
      NewObjects(env, st, st', lists, o.k, i);
    }
  }

  lemma OldEntryOk(env: Env, root: Schema, st: State, st': State, lists: seq<seq<seq<ResultDict>>>,
                   o: ResultDict, ls: seq<ResultDict>, c: Schema)
    requires st.queue != [] && |st.tops| == |env.datas| && Iteration(env, st, st', lists)
    requires ItemOk(env, root, st, st.queue[0]) && o in st.rels && o.k < |env.datas|
    requires o in st'.rels && st'.rels[o] == Attach(st.rels[o], st.queue[0].node.name, ls)
    requires forall x <- ls :: x in st'.rels
    requires if Waits(st.queue[0], o)
             then Answered(env, ls, ChildExample(env, o.k, o.path, o.raw.text, st.queue[0].node.name),
                           st.queue[0].node.shape)
             else ls == []
    requires c in o.shape.children && DistinctNames(o.shape.children) && EntryOk(env, st, o, c)
    ensures EntryOk(env, st', o, c)
  {
    var it := st.queue[0];
    if (Waits(it, o) && c.name == it.node.name)
       || Settled(env, st, st.rels[o], ChildExample(env, o.k, o.path, o.raw.text, c.name), c) {
      NothingLeaves(env, st, st', lists);
      EntrySettles(env, st, st', it.node.name, it.node.shape, Waits(it, o), o, ls, c);
    } else {
      PendingStays(env, st, st', lists, o, c);
    }
  }

  lemma NothingLeaves(env: Env, st: State, st': State, lists: seq<seq<seq<ResultDict>>>)
    requires st.queue != [] && |st.tops| == |env.datas| && Iteration(env, st, st', lists)
    ensures forall o <- st.rels :: o in st'.rels
  {
  }

  /** An entry that the processed node answers, or that was final, is final. */
  lemma EntrySettles(env: Env, st: State, st': State, name: string, shape: Schema, waits: bool,
                     o: ResultDict, ls: seq<ResultDict>, c: Schema)
    requires o in st.rels && o.k < |env.datas| && o in st'.rels && st'.rels[o] == Attach(st.rels[o], name, ls)
    requires (forall x <- st.rels :: x in st'.rels) && forall x <- ls :: x in st'.rels
    requires shape.name == name && DistinctNames(o.shape.children) && c in o.shape.children
    requires waits ==> shape in o.shape.children && name !in st.rels[o]
    requires if waits then Answered(env, ls, ChildExample(env, o.k, o.path, o.raw.text, name), shape) else ls == []
    requires (waits && c.name == name)
             || Settled(env, st, st.rels[o], ChildExample(env, o.k, o.path, o.raw.text, c.name), c)
    ensures EntryOk(env, st', o, c)
  {
    var ex := ChildExample(env, o.k, o.path, o.raw.text, c.name);
    if waits && c.name == name {
      SameName(o.shape.children, c, shape);
    } else {
      SettledGrows(env, st, st', st.rels[o], ex, c);
      StaysSettled(env, st', st.rels[o], ex, c, name, ls);
    }
  }

  /** Results under another name, or none, change nothing. */
  lemma StaysSettled(env: Env, st: State, m: Rel, ex: Example, c: Schema, name: string, ls: seq<ResultDict>)
    requires Settled(env, st, m, ex, c) && (name != c.name || ls == [])
    ensures Settled(env, st, Attach(m, name, ls), ex, c)
  {
    if name != c.name {
      SettledAttach(env, st, m, ex, c, name, ls);
    }
  }

  /** A dictionary that waits for another node than the processed one still does. */
  lemma PendingStays(env: Env, st: State, st': State, lists: seq<seq<seq<ResultDict>>>, o: ResultDict, c: Schema)
    requires st.queue != [] && |st.tops| == |env.datas| && Iteration(env, st, st', lists)
    requires Pending(st, o, c) && st.queue[0].node.WellFormed()
    requires Waits(st.queue[0], o) ==> c.name != st.queue[0].node.name
    ensures Pending(st', o, c)
  {
    var a :| 0 <= a < |st.queue| && Waits(st.queue[a], o) && st.queue[a].node.shape == c;
    QueueEntry(env, st, st', lists, a - 1);
    assert Waits(st'.queue[a - 1], o) && st'.queue[a - 1].node.shape == c;
  }

  lemma OldObjectOk(env: Env, root: Schema, st: State, st': State, lists: seq<seq<seq<ResultDict>>>, o: ResultDict)
    requires st.queue != [] && |st.tops| == |env.datas| && Iteration(env, st, st', lists)
    requires ItemOk(env, root, st, st.queue[0]) && o in st.rels && ObjectOk(env, st, o)
    ensures o in st'.rels && ObjectOk(env, st', o)
  {
    var ls := AttachedList(env, root, st, st', lists, o);
    forall c <- o.shape.children ensures EntryOk(env, st', o, c) {
      OldEntryOk(env, root, st, st', lists, o, ls, c);
    }
    assert st.queue[0].node.WellFormed();
  }

  lemma SameName(cs: seq<Schema>, c: Schema, d: Schema)
    requires DistinctNames(cs) && c in cs && d in cs && c.name == d.name
    ensures c == d
  {
  }

  lemma NewObjectOk(env: Env, root: Schema, st: State, st': State, lists: seq<seq<seq<ResultDict>>>, o: ResultDict)
    requires st.queue != [] && |st.tops| == |env.datas| && Iteration(env, st, st', lists)
    requires ItemOk(env, root, st, st.queue[0]) && o in News(lists)
    ensures o in st'.rels && ObjectOk(env, st', o)
  {
    var it := st.queue[0];
    assert ItemOk(env, root, st, it);
    var k :| 0 <= k < |lists| && o in Concat(lists[k]);
    NewObjectFacts(env, st, st', lists, o, k);
    ChildrenJoin(env, st, st', lists);
    NewObjectWaits(env, st', lists, o, k, it.node, |st.queue| - 1);
  }

  /** The children of a node stand in the queue from position n on, with what they are handed. */
  ghost predicate Joined(env: Env, st: State, lists: seq<seq<seq<ResultDict>>>, node: SchemaTree, n: nat) {
    forall i | 0 <= i < |node.children| ::
      n + i < |st.queue| && st.queue[n + i] == Item(node.children[i], HandDown(env, lists))
  }

  lemma NewObjectWaits(env: Env, st: State, lists: seq<seq<seq<ResultDict>>>, o: ResultDict, k: nat,
                       node: SchemaTree, n: nat)
    requires k < |lists| && o in Concat(lists[k]) && o.k == k && k < |env.datas| && node.WellFormed()
    requires Joined(env, st, lists, node, n)
    requires o in st.rels && st.rels[o] == map[] && o.shape == node.shape && DistinctSiblings(o.shape)
    ensures ObjectOk(env, st, o)
  {
    forall c <- o.shape.children ensures EntryOk(env, st, o, c) {
      var i :| 0 <= i < |o.shape.children| && o.shape.children[i] == c;
      ChildShape(node, i);
      NewPending(env, st, lists, o, k, node, i, n + i);
    }
  }

  /** The children of the processed node join the queue. */
  lemma ChildrenJoin(env: Env, st: State, st': State, lists: seq<seq<seq<ResultDict>>>)
    requires st.queue != [] && |st.tops| == |env.datas| && Iteration(env, st, st', lists)
    ensures Joined(env, st', lists, st.queue[0].node, |st.queue| - 1)
  {
  }

  /** A new dictionary waits for each child of its node. */
  lemma NewPending(env: Env, st: State, lists: seq<seq<seq<ResultDict>>>, o: ResultDict, k: nat,
                   node: SchemaTree, i: nat, a: nat)
    requires k < |lists| && o in Concat(lists[k]) && o.k == k && node.WellFormed() && i < |node.shape.children|
    requires a < |st.queue| && st.queue[a] == Item(node.children[i], HandDown(env, lists))
    ensures Pending(st, o, node.shape.children[i])
  {
    ChildShape(node, i);
    HandedWaits(env, lists, node.children[i], o, k);
    PendingAt(st, a, Item(node.children[i], HandDown(env, lists)), o, node.shape.children[i]);
  }

  lemma ChildShape(node: SchemaTree, i: nat)
    requires node.WellFormed() && i < |node.shape.children|
    ensures i < |node.children| && node.children[i].shape == node.shape.children[i]
  {
  }

  lemma PendingAt(st: State, a: nat, it: Item, o: ResultDict, c: Schema)
    requires a < |st.queue| && st.queue[a] == it && Waits(it, o) && it.node.shape == c
    ensures Pending(st, o, c)
  {
  }

  lemma HandedWaits(env: Env, lists: seq<seq<seq<ResultDict>>>, node: SchemaTree, o: ResultDict, k: nat)
    requires k < |lists| && o in Concat(lists[k]) && o.k == k
    ensures Waits(Item(node, HandDown(env, lists)), o)
  {
  }

  lemma OldItemOk(env: Env, root: Schema, st: State, st': State, lists: seq<seq<seq<ResultDict>>>, a: nat, b: Item)
    requires st.queue != [] && |st.tops| == |env.datas| && Iteration(env, st, st', lists)
    requires 0 < a < |st.queue| && b == st.queue[a] && Apart(st.queue[0], b)
    requires ItemOk(env, root, st, st.queue[0]) && ItemOk(env, root, st, b)
    ensures ItemOk(env, root, st', b)
  {
    var it := st.queue[0];
    if b.asked.Asked? {
      forall k, o | 0 <= k < |env.datas| && o in b.asked.parents[k]
        ensures o in st'.rels && b.node.name !in st'.rels[o]
      {
        assert o in st.rels && b.node.name !in st.rels[o] && Waits(b, o);
        if Waits(it, o) {
          var ls := AttachedList(env, root, st, st', lists, o);
          assert it.node.name != b.node.name;
        }
      }
    }
  }

  lemma NewItemOk(env: Env, root: Schema, st: State, st': State, lists: seq<seq<seq<ResultDict>>>, ci: nat, b: Item)
    requires st.queue != [] && |st.tops| == |env.datas| && Iteration(env, st, st', lists)
    requires ItemOk(env, root, st, st.queue[0]) && ci < |st.queue[0].node.children|
    requires b == Item(st.queue[0].node.children[ci], HandDown(env, lists))
    ensures ItemOk(env, root, st', b)
  {
    var it := st.queue[0];
    var child := it.node.children[ci];
    assert child.shape == it.node.shape.children[ci] && child.WellFormed() && DistinctSiblings(child.shape);
    forall k, o | 0 <= k < |env.datas| && o in Concat(lists[k])
      ensures o in st'.rels && o.k == k && child.shape in o.shape.children && child.name !in st'.rels[o]
    {
      NewObjectFacts(env, st, st', lists, o, k);
      assert o in News(lists);
    }
  }

  lemma ItemsApart(env: Env, root: Schema, st: State, st': State, lists: seq<seq<seq<ResultDict>>>, a: nat, b: nat)
    requires st.queue != [] && Inv(env, root, st) && Iteration(env, st, st', lists)
    requires a < b < |st'.queue|
    ensures Apart(st'.queue[a], st'.queue[b])
  {
    var it, n := st.queue[0], |st.queue| - 1;
    assert ItemOk(env, root, st, it);
    if b < n {
      assert Apart(st.queue[a + 1], st.queue[b + 1]);
    } else if a < n {
      var waiting := st'.queue[a];
      assert st'.queue[b].asked == HandDown(env, lists);
      assert ItemOk(env, root, st, st.queue[a + 1]);
      if waiting.asked.Asked? {
        forall k, o | 0 <= k < |waiting.asked.parents| && o in waiting.asked.parents[k]
          ensures !Waits(st'.queue[b], o)
        {
          assert o in st.rels && o.k == k;
          if o in Concat(lists[k]) {
            NewObjectFacts(env, st, st', lists, o, k);
          }
        }
      }
    } else {
      var x, y := a - n, b - n;
      assert it.node.shape.children[x].name != it.node.shape.children[y].name;
      assert it.node.children[x].WellFormed() && it.node.children[y].WellFormed();
    }
  }

  lemma TopStaysOk(env: Env, root: Schema, st: State, st': State, lists: seq<seq<seq<ResultDict>>>, k: nat)
    requires st.queue != [] && Inv(env, root, st) && Iteration(env, st, st', lists)
    requires k < |env.datas|
    ensures |st'.tops| == |env.datas| && TopOk(env, root, st', k)
  {
    var it := st.queue[0];
    assert ItemOk(env, root, st, it) && TopOk(env, root, st, k);
    var m := st.tops[k];
    var ls: seq<ResultDict> := [];
    if it.asked.NotSet? {
      ls := lists[k][0];
      NewObjects(env, st, st', lists, k, 0);
    }
    assert st'.tops[k] == Attach(m, it.node.name, ls);
    forall c <- root.children
      ensures (PendingTop(st', c) && c.name !in st'.tops[k])
              || Settled(env, st', st'.tops[k], RootExample(env, k, c.name), c)
    {
      var ex := RootExample(env, k, c.name);
      if it.asked.NotSet? && c.name == it.node.name {
        SameName(root.children, c, it.node.shape);
      } else if Settled(env, st, m, ex, c) {
        SettledGrows(env, st, st', m, ex, c);
        if it.asked.NotSet? {
          SettledAttach(env, st', m, ex, c, it.node.name, ls);
        }
      } else {
        var a :| 0 <= a < |st.queue| && st.queue[a].asked.NotSet? && st.queue[a].node.shape == c;
        assert a != 0 by {
          assert it.node.WellFormed();
        }
        assert st'.queue[a - 1] == st.queue[a];
      }
    }
  }

  lemma QueueEntry(env: Env, st: State, st': State, lists: seq<seq<seq<ResultDict>>>, a: nat)
    requires st.queue != [] && |st.tops| == |env.datas| && Iteration(env, st, st', lists)
    requires a < |st'.queue|
    ensures var n := |st.queue| - 1;
            if a < n then st'.queue[a] == st.queue[a + 1]
            else a - n < |st.queue[0].node.children|
                 && st'.queue[a] == Item(st.queue[0].node.children[a - n], HandDown(env, lists))
  {
  }

  lemma ItemsOk(env: Env, root: Schema, st: State, st': State, lists: seq<seq<seq<ResultDict>>>, a: nat)
    requires st.queue != [] && |st.tops| == |env.datas| && Iteration(env, st, st', lists)
    requires a < |st'.queue| && ItemOk(env, root, st, st.queue[0])
    requires a + 1 < |st.queue| ==> Apart(st.queue[0], st.queue[a + 1]) && ItemOk(env, root, st, st.queue[a + 1])
    ensures ItemOk(env, root, st', st'.queue[a])
  {
    QueueEntry(env, st, st', lists, a);
    var n := |st.queue| - 1;
    if a < n {
      OldItemOk(env, root, st, st', lists, a + 1, st'.queue[a]);
    } else {
      NewItemOk(env, root, st, st', lists, a - n, st'.queue[a]);
    }
  }

  /** One iteration of the loop keeps the invariant. */
  lemma IterationKeepsInv(env: Env, root: Schema, st: State, st': State, lists: seq<seq<seq<ResultDict>>>)
    requires st.queue != [] && Inv(env, root, st) && Iteration(env, st, st', lists)
    ensures Inv(env, root, st')
  {
    forall a | 0 <= a < |st'.queue| ensures ItemOk(env, root, st', st'.queue[a]) {
      ItemsOk(env, root, st, st', lists, a);
    }
    forall a, b | 0 <= a < b < |st'.queue| ensures Apart(st'.queue[a], st'.queue[b]) {
      ItemsApart(env, root, st, st', lists, a, b);
    }
    forall o <- st'.rels ensures ObjectOk(env, st', o) {
      if o in st.rels {
        OldObjectOk(env, root, st, st', lists, o);
      } else {
        NewObjectOk(env, root, st, st', lists, o);
      }
    }
    forall k | 0 <= k < |env.datas| ensures TopOk(env, root, st', k) {
      TopStaysOk(env, root, st, st', lists, k);
    }
  }

  /** Before the first iteration only the top-level nodes wait and nothing is stored. */
  ghost function Start(env: Env, top: seq<SchemaTree>): State {
    State(seq(|top|, i requires 0 <= i < |top| => Item(top[i], NotSet)), map[], seq(|env.datas|, _ => map[]))
  }

  lemma StartInv(env: Env, root: SchemaTree)
    requires root.WellFormed() && DistinctSiblings(root.shape)
    ensures Inv(env, root.shape, Start(env, root.children))
  {
    var st := Start(env, root.children);
    forall a, b | 0 <= a < b < |st.queue| ensures Apart(st.queue[a], st.queue[b]) {
      assert root.children[a].WellFormed() && root.children[b].WellFormed();
      assert root.shape.children[a].name != root.shape.children[b].name;
    }
    forall c | c in root.shape.children ensures PendingTop(st, c) {
      var i :| 0 <= i < |root.shape.children| && root.shape.children[i] == c;
      assert st.queue[i].node.shape == c;
    }
    forall k | 0 <= k < |env.datas| ensures TopOk(env, root.shape, st, k) {
      assert st.tops[k] == map[];
    }
  }

  // ---------- The finished object graph is the depth-first reference ----------

  ghost predicate ItemsMatch(rels: map<ResultDict, Rel>, ls: seq<ResultDict>, items: seq<Extracted>)
    decreases items
  {
    && |ls| == |items|
    && forall j | 0 <= j < |items| ::
         ls[j] in rels && ls[j].raw == items[j].raw && GroupsMatch(rels, rels[ls[j]], items[j].relations)
  }

  ghost predicate GroupsIn(rels: map<ResultDict, Rel>, m: Rel, gs: seq<Group>)
    decreases gs, 0
  {
    forall i | 0 <= i < |gs| :: gs[i].name in m && ItemsMatch(rels, m[gs[i].name], gs[i].items)
  }

  ghost predicate Covered(m: Rel, cs: seq<Schema>, gs: seq<Group>) {
    forall d <- cs :: d.name in m ==> exists i :: 0 <= i < |gs| && gs[i].name == d.name
  }

  /** `m` holds exactly the groups `gs`, and recursively so. */
  ghost predicate GroupsMatch(rels: map<ResultDict, Rel>, m: Rel, gs: seq<Group>)
    decreases gs, 1
  {
    GroupsIn(rels, m, gs) && forall name <- m :: exists i :: 0 <= i < |gs| && gs[i].name == name
  }

  lemma {:induction false} ItemsDone(env: Env, root: Schema, st: State, ls: seq<ResultDict>, ex: Example, c: Schema)
    requires Inv(env, root, st) && st.queue == [] && ex.k < |env.datas|
    requires Answered(env, ls, ex, c) && forall x <- ls :: x in st.rels
    ensures ItemsMatch(st.rels, ls, Expect(env, ex, c))
    decreases c, 1
  {
    var items := Expect(env, ex, c);
    forall j | 0 <= j < |items|
      ensures ls[j] in st.rels && ls[j].raw == items[j].raw
              && GroupsMatch(st.rels, st.rels[ls[j]], items[j].relations)
    {
      var o := ls[j];
      assert ObjectOk(env, st, o);
      assert items[j].relations == ExpectGroups(env, Result(o.k, o.path, o.raw.text), c.children);
      forall d <- c.children
        ensures Settled(env, st, st.rels[o], ChildExample(env, o.k, o.path, o.raw.text, d.name), d)
      {
        assert EntryOk(env, st, o, d);
      }
      GroupsDone(env, root, st, st.rels[o], Result(o.k, o.path, o.raw.text), c.children);
    }
  }

  lemma {:induction false} GroupsDone(env: Env, root: Schema, st: State, m: Rel, who: Asker, cs: seq<Schema>)
    requires Inv(env, root, st) && st.queue == [] && who.k < |env.datas|
    requires forall d <- cs :: Settled(env, st, m, Question(env, who, d.name), d)
    ensures GroupsIn(st.rels, m, ExpectGroups(env, who, cs)) && Covered(m, cs, ExpectGroups(env, who, cs))
    decreases cs, 0
  {
    if cs != [] {
      var d := cs[0];
      var ex := Question(env, who, d.name);
      var rest := ExpectGroups(env, who, cs[1..]);
      GroupsDone(env, root, st, m, who, cs[1..]);
      assert Settled(env, st, m, ex, d);
      if env.answers(ex) == [] {
        assert ExpectGroups(env, who, cs) == [] + rest == rest;
      } else {
        ItemsDone(env, root, st, m[d.name], ex, d);
        PrependGroup(st.rels, m, Group(d.name, Expect(env, ex, d)), rest, cs);
      }
    }
  }

  lemma PrependGroup(rels: map<ResultDict, Rel>, m: Rel, g: Group, rest: seq<Group>, cs: seq<Schema>)
    requires cs != [] && cs[0].name == g.name && g.name in m && ItemsMatch(rels, m[g.name], g.items)
    requires GroupsIn(rels, m, rest) && Covered(m, cs[1..], rest)
    ensures GroupsIn(rels, m, [g] + rest) && Covered(m, cs, [g] + rest)
  {
    forall e <- cs | e.name in m ensures exists i :: 0 <= i < |[g] + rest| && ([g] + rest)[i].name == e.name {
      if e == cs[0] {
        assert ([g] + rest)[0].name == e.name;
      } else {
        assert e in cs[1..];
        var i :| 0 <= i < |rest| && rest[i].name == e.name;
        assert ([g] + rest)[i + 1].name == e.name;
      }
    }
  }

  /** Main theorem: once no node waits, every text's result map is, object for object,
      the result of extracting depth first under each single parent. */
  lemma FinishedIsReference(env: Env, root: Schema, st: State, k: nat)
    requires Inv(env, root, st) && st.queue == [] && k < |env.datas|
    ensures GroupsMatch(st.rels, st.tops[k], ExpectGroups(env, Text(k), root.children))
  {
    assert TopOk(env, root, st, k);
    forall d <- root.children ensures Settled(env, st, st.tops[k], RootExample(env, k, d.name), d) {
      assert !PendingTop(st, d);
    }
    GroupsDone(env, root, st, st.tops[k], Text(k), root.children);
  }

  /** `m` holds under the name of `c` all answers to this question in order, each as a
      dictionary of its own made for `c`; and nothing if there is no answer. */
  ghost predicate Stores(env: Env, rels: map<ResultDict, Rel>, m: Rel, ex: Example, c: Schema) {
    var raws := env.answers(ex);
    if raws == [] then c.name !in m else
    && c.name in m && |m[c.name]| == |raws| && NoDup(m[c.name])
    && forall j | 0 <= j < |raws| ::
         var o := m[c.name][j];
         o in rels && o.raw == raws[j] && o.k == ex.k && o.path == ex.path + [(c.name, j)] && o.shape == c
  }

  ghost predicate OnlyNames(m: Rel, cs: seq<Schema>) {
    forall name <- m :: exists c :: c in cs && c.name == name
  }

  lemma SettledStores(env: Env, st: State, m: Rel, ex: Example, c: Schema)
    requires Settled(env, st, m, ex, c) && ex.name == c.name
    ensures Stores(env, st.rels, m, ex, c)
  {
    if env.answers(ex) != [] {
      var ls := m[c.name];
      forall i, j | 0 <= i < j < |ls| ensures ls[i] != ls[j] {
        assert ls[i].path != ls[j].path by {
          assert ls[i].path[|ex.path|] == (c.name, i) && ls[j].path[|ex.path|] == (c.name, j);
        }
      }
    }
  }

  /** The same without the reference: in the end every text holds all answers to the question
      that names a top-level node, and every result all answers to the question that names a
      child of its node and its own text. */
  lemma AllAnswersStored(env: Env, root: Schema, st: State)
    requires Inv(env, root, st) && st.queue == []
    ensures forall k | 0 <= k < |env.datas| ::
              && OnlyNames(st.tops[k], root.children)
              && forall c <- root.children ::
                   Stores(env, st.rels, st.tops[k], Example(env.datas[k], HalfWidth(c.name), k, [], c.name), c)
    ensures forall o <- st.rels ::
              && o.k < |env.datas| && OnlyNames(st.rels[o], o.shape.children)
              && forall c, p | c in o.shape.children && Reads(env, p, o.raw.text, c.name) ::
                   Stores(env, st.rels, st.rels[o], Example(env.datas[o.k], p, o.k, o.path, c.name), c)
  {
    forall k | 0 <= k < |env.datas|
      ensures OnlyNames(st.tops[k], root.children)
      ensures forall c <- root.children ::
                Stores(env, st.rels, st.tops[k], Example(env.datas[k], HalfWidth(c.name), k, [], c.name), c)
    {
      TopAnswersStored(env, root, st, k);
    }
    forall o <- st.rels
      ensures o.k < |env.datas| && OnlyNames(st.rels[o], o.shape.children)
      ensures forall c, p | c in o.shape.children && Reads(env, p, o.raw.text, c.name) ::
                Stores(env, st.rels, st.rels[o], Example(env.datas[o.k], p, o.k, o.path, c.name), c)
    {
      assert ObjectOk(env, st, o);
      forall c, p | c in o.shape.children && Reads(env, p, o.raw.text, c.name)
        ensures Stores(env, st.rels, st.rels[o], Example(env.datas[o.k], p, o.k, o.path, c.name), c)
      {
        assert EntryOk(env, st, o, c);
        PromptReads(env, o.raw.text, c.name);
        ReadsOnce(env, p, Prompt(env, c.name, Connect(env, o.raw.text)), o.raw.text, c.name);
        SettledStores(env, st, st.rels[o], ChildExample(env, o.k, o.path, o.raw.text, c.name), c);
      }
    }
  }

  lemma TopAnswersStored(env: Env, root: Schema, st: State, k: nat)
    requires Inv(env, root, st) && st.queue == [] && k < |env.datas|
    ensures OnlyNames(st.tops[k], root.children)
    ensures forall c <- root.children ::
              Stores(env, st.rels, st.tops[k], Example(env.datas[k], HalfWidth(c.name), k, [], c.name), c)
  {
    assert TopOk(env, root, st, k);
    forall c <- root.children
      ensures Stores(env, st.rels, st.tops[k], Example(env.datas[k], HalfWidth(c.name), k, [], c.name), c)
    {
      assert !PendingTop(st, c);
      SettledStores(env, st, st.tops[k], RootExample(env, k, c.name), c);
    }
  }
}
