/** The loop over the schema tree, working on shared dictionaries and node fields. */
module SchemaPredictor {
  import opened SchemaExtraction
  import opened SchemaTraversal

  class Predictor {
    const env: Env

    constructor (env: Env)
      ensures this.env == env
    {
      this.env := env;
    }

    /** The ids of the questions that node `node` asks about text k. */
    ghost predicate AsksFor(node: SchemaTree, asked: Asked, k: nat, examples: seq<Example>, ids: seq<nat>) {
      && k < |env.datas|
      && (forall i | 0 <= i < |ids| :: ids[i] < |examples|)
      && (forall i, j | 0 <= i < j < |ids| :: ids[i] < ids[j])
      && match asked
         case NotSet => |ids| == 1 && examples[ids[0]] == RootExample(env, k, node.name)
         case Asked(prefix, parents) =>
           && k < |prefix| && k < |parents| && |ids| == |prefix[k]| == |parents[k]|
           && forall i | 0 <= i < |ids| ::
                examples[ids[i]] == Example(env.datas[k], Prompt(env, node.name, prefix[k][i]),
                                            k, parents[k][i].path, node.name)
    }

    ghost predicate Aligned(asked: Asked) {
      asked.Asked? ==>
        && |asked.prefix| == |asked.parents| == |env.datas|
        && forall k | 0 <= k < |env.datas| :: |asked.prefix[k]| == |asked.parents[k]|
    }

    /** The questions of one stage; `inputMap[k]` lists those about text k. */
    method BuildExamples(node: SchemaTree) returns (examples: seq<Example>, inputMap: seq<seq<nat>>)
      requires Aligned(node.asked)
      ensures |inputMap| == |env.datas|
      ensures forall k | 0 <= k < |inputMap| :: AsksFor(node, node.asked, k, examples, inputMap[k])
      ensures forall k, i | 0 <= k < |inputMap| && 0 <= i < |inputMap[k]| ::
                inputMap[k][i] < |examples| && RightQuestion(node, node.asked, k, i, examples[inputMap[k][i]])
    {
      examples, inputMap := BuildAll(node);
      forall k, i | 0 <= k < |inputMap| && 0 <= i < |inputMap[k]|
        ensures inputMap[k][i] < |examples| && RightQuestion(node, node.asked, k, i, examples[inputMap[k][i]])
      {
        assert AsksFor(node, node.asked, k, examples, inputMap[k]);
        QuestionIsRight(node, node.asked, k, i, examples, inputMap[k]);
      }
    }

    /** Question i about text k is about that text; it reads as the node's name, or as that name
        and the text of parent i if the prefixes were made from the parents. */
    ghost predicate RightQuestion(node: SchemaTree, asked: Asked, k: nat, i: nat, ex: Example) {
      && k < |env.datas| && ex.text == env.datas[k]
      && match asked
         case NotSet => ex.prompt == HalfWidth(node.name)
         case Asked(prefix, parents) =>
           k < |prefix| && k < |parents| && prefix[k] == Prefixes(env, parents[k]) ==>
             i < |parents[k]| && Reads(env, ex.prompt, parents[k][i].raw.text, node.name)
    }

    lemma QuestionIsRight(node: SchemaTree, asked: Asked, k: nat, i: nat, examples: seq<Example>, ids: seq<nat>)
      requires AsksFor(node, asked, k, examples, ids) && i < |ids|
      ensures RightQuestion(node, asked, k, i, examples[ids[i]])
    {
      if asked.Asked? && asked.prefix[k] == Prefixes(env, asked.parents[k]) {
        PromptReads(env, asked.parents[k][i].raw.text, node.name);
      }
    }

    method BuildAll(node: SchemaTree) returns (examples: seq<Example>, inputMap: seq<seq<nat>>)
      requires Aligned(node.asked)
      ensures |inputMap| == |env.datas|
      ensures forall k | 0 <= k < |inputMap| :: AsksFor(node, node.asked, k, examples, inputMap[k])
    {
      examples, inputMap := [], [];
      for k := 0 to |env.datas|
        invariant |inputMap| == k
        invariant forall x | 0 <= x < k :: AsksFor(node, node.asked, x, examples, inputMap[x])
      {
        var ids, more := AskText(node, k, |examples|);
        forall x | 0 <= x < k ensures AsksFor(node, node.asked, x, examples + more, inputMap[x]) {
          KeepsAsking(node, node.asked, x, examples, more, inputMap[x]);
        }
        examples := examples + more;
        inputMap := inputMap + [ids];
        assert AsksFor(node, node.asked, k, examples, ids);
      }
    }

    lemma KeepsAsking(node: SchemaTree, asked: Asked, k: nat, examples: seq<Example>, more: seq<Example>, ids: seq<nat>)
      requires AsksFor(node, asked, k, examples, ids)
      ensures AsksFor(node, asked, k, examples + more, ids)
    {
    }

    /** The questions about one text, numbered from `base` on. */
    method AskText(node: SchemaTree, k: nat, base: nat) returns (ids: seq<nat>, more: seq<Example>)
      requires Aligned(node.asked) && k < |env.datas|
      ensures |more| == |ids| && forall i | 0 <= i < |ids| :: ids[i] == base + i
      ensures match node.asked
              case NotSet => more == [RootExample(env, k, node.name)]
              case Asked(prefix, parents) =>
                && |more| == |prefix[k]|
                && forall i | 0 <= i < |more| ::
                     more[i] == Example(env.datas[k], Prompt(env, node.name, prefix[k][i]),
                                        k, parents[k][i].path, node.name)
    {
      match node.asked
      case NotSet =>
        more := [Example(env.datas[k], HalfWidth(node.name), k, [], node.name)];
        ids := [base];
      case Asked(prefix, parents) =>
        more := [];
        for i := 0 to |prefix[k]|
          invariant |more| == i
          invariant forall x | 0 <= x < i ::
                      more[x] == Example(env.datas[k], Prompt(env, node.name, prefix[k][x]),
                                         k, parents[k][x].path, node.name)
        {
          more := more + [Example(env.datas[k], Prompt(env, node.name, prefix[k][i]),
                                  k, parents[k][i].path, node.name)];
        }
        ids := seq(|prefix[k]|, i requires 0 <= i => base + i);
    }

    /** One call of the model: a list of new dictionaries per question. */
    method Ask(examples: seq<Example>, ghost c: Schema) returns (resultList: seq<seq<ResultDict>>)
      ensures |resultList| == |examples|
      ensures forall x | 0 <= x < |examples| :: Answered(env, resultList[x], examples[x], c) && NoDup(resultList[x])
      ensures forall x | 0 <= x < |examples| :: forall o <- resultList[x] :: fresh(o) && o.relations == map[]
      ensures forall x, y | 0 <= x < y < |examples| :: forall o <- resultList[x] :: o !in resultList[y]
    {
      resultList := [];
      for x := 0 to |examples|
        invariant |resultList| == x
        invariant forall y | 0 <= y < x :: Answered(env, resultList[y], examples[y], c) && NoDup(resultList[y])
        invariant forall y | 0 <= y < x :: forall o <- resultList[y] :: fresh(o) && o.relations == map[]
        invariant forall y, z | 0 <= y < z < x :: forall o <- resultList[y] :: o !in resultList[z]
      {
        var ls := AskOne(examples[x], c);
        resultList := resultList + [ls];
      }
    }

    method AskOne(ex: Example, ghost c: Schema) returns (ls: seq<ResultDict>)
      ensures Answered(env, ls, ex, c) && NoDup(ls)
      ensures forall o <- ls :: fresh(o) && o.relations == map[]
    {
      ls := [];
      var raws := env.answers(ex);
      for j := 0 to |raws|
        invariant |ls| == j && NoDup(ls)
        invariant forall i | 0 <= i < j ::
                    && ls[i].raw == raws[i] && ls[i].k == ex.k
                    && ls[i].path == ex.path + [(ex.name, i)] && ls[i].shape == c
        invariant forall o <- ls :: fresh(o) && o.relations == map[]
      {
        var o := new ResultDict(raws[j], ex.k, ex.path + [(ex.name, j)], c);
        ls := ls + [o];
      }
    }

    /** First stage: results go into the per-text result maps. */
    method StoreTop(name: string, inputMap: seq<seq<nat>>, resultList: seq<seq<ResultDict>>, results: seq<Rel>)
      returns (results': seq<Rel>, relations: seq<seq<ResultDict>>)
      requires |inputMap| == |results|
      requires forall k | 0 <= k < |inputMap| :: |inputMap[k]| == 1 && inputMap[k][0] < |resultList|
      ensures |results'| == |relations| == |results|
      ensures forall k | 0 <= k < |results| :: results'[k] == Attach(results[k], name, resultList[inputMap[k][0]])
      ensures forall k | 0 <= k < |results| ::
                relations[k] == HandedParents(results[k], name, resultList[inputMap[k][0]])
    {
      results', relations := results, [];
      for k := 0 to |results|
        invariant |results'| == |results| && |relations| == k
        invariant forall x | k <= x < |results| :: results'[x] == results[x]
        invariant forall x | 0 <= x < k :: results'[x] == Attach(results[x], name, resultList[inputMap[x][0]])
        invariant forall x | 0 <= x < k ::
                    relations[x] == HandedParents(results[x], name, resultList[inputMap[x][0]])
      {
        var found := resultList[inputMap[k][0]];
        if found != [] {
          if name !in results'[k] {
            results' := results'[k := results'[k][name := found]];
          } else {
            results' := results'[k := results'[k][name := results'[k][name] + found]];
          }
        }
        relations := relations + [if name in results'[k] then results'[k][name] else []];
      }
    }

    ghost function Dicts(parents: seq<seq<ResultDict>>): set<ResultDict> {
      set k, o | 0 <= k < |parents| && o in parents[k] :: o
    }

    /** Later stages: results go under the parent dictionary they were asked for. */
    method StoreRelations(name: string, inputMap: seq<seq<nat>>, resultList: seq<seq<ResultDict>>,
                          parents: seq<seq<ResultDict>>)
      requires |inputMap| == |parents|
      requires forall k | 0 <= k < |parents| ::
                 && |inputMap[k]| == |parents[k]| && NoDup(parents[k])
                 && (forall o <- parents[k] :: o.k == k)
                 && forall i | 0 <= i < |inputMap[k]| :: inputMap[k][i] < |resultList|
      modifies Dicts(parents)
      ensures forall k, i | 0 <= k < |parents| && 0 <= i < |parents[k]| ::
                parents[k][i].relations == Attach(old(parents[k][i].relations), name, resultList[inputMap[k][i]])
    {
      for k := 0 to |parents|
        invariant forall x, i | 0 <= x < k && 0 <= i < |parents[x]| ::
                    parents[x][i].relations == Attach(old(parents[x][i].relations), name, resultList[inputMap[x][i]])
        invariant forall x, i | k <= x < |parents| && 0 <= i < |parents[x]| ::
                    parents[x][i].relations == old(parents[x][i].relations)
      {
        label before:
        assert forall x, o | 0 <= x < |parents| && x != k && o in parents[x] :: o !in parents[k] by {
          forall x, o | 0 <= x < |parents| && x != k && o in parents[x] ensures o !in parents[k] {
            assert o.k == x;
          }
        }
        StoreText(name, inputMap[k], resultList, parents[k]);
      }
    }

    method StoreText(name: string, ids: seq<nat>, resultList: seq<seq<ResultDict>>, os: seq<ResultDict>)
      requires |ids| == |os| && NoDup(os) && forall i | 0 <= i < |ids| :: ids[i] < |resultList|
      modifies set o | o in os
      ensures forall i | 0 <= i < |os| :: os[i].relations == Attach(old(os[i].relations), name, resultList[ids[i]])
    {
      for i := 0 to |os|
        invariant forall x | 0 <= x < i :: os[x].relations == Attach(old(os[x].relations), name, resultList[ids[x]])
        invariant forall x | i <= x < |os| :: os[x].relations == old(os[x].relations)
      {
        var found := resultList[ids[i]];
        if found != [] {
          if name !in os[i].relations {
            os[i].relations := os[i].relations[name := found];
          } else {
            os[i].relations := os[i].relations[name := os[i].relations[name] + found];
          }
        }
      }
    }

    /** The parents of the next stage, read back from the dictionaries. */
    method CollectRelations(name: string, parents: seq<seq<ResultDict>>) returns (next: seq<seq<ResultDict>>)
      ensures |next| == |parents|
      ensures forall k | 0 <= k < |parents| :: next[k] == Concat(Stored(name, parents[k]))
    {
      next := [];
      for k := 0 to |parents|
        invariant |next| == k
        invariant forall x | 0 <= x < k :: next[x] == Concat(Stored(name, parents[x]))
      {
        var acc := [];
        for j := 0 to |parents[k]|
          invariant acc == Concat(Stored(name, parents[k])[..j])
        {
          assert Stored(name, parents[k])[..j + 1][..j] == Stored(name, parents[k])[..j];
          if name in parents[k][j].relations {
            acc := acc + parents[k][j].relations[name];
          }
        }
        assert Stored(name, parents[k])[..|parents[k]|] == Stored(name, parents[k]);
        next := next + [acc];
      }
    }

    ghost function Stored(name: string, os: seq<ResultDict>): seq<seq<ResultDict>>
      reads set o | o in os
    {
      seq(|os|, i requires 0 <= i < |os| reads set o | o in os =>
        if name in os[i].relations then os[i].relations[name] else [])
    }

    /** The prefixes of the next stage, built from the answers alone. */
    method BuildPrefix(inputMap: seq<seq<nat>>, resultList: seq<seq<ResultDict>>) returns (prefix: seq<seq<string>>)
      requires forall k, i | 0 <= k < |inputMap| && 0 <= i < |inputMap[k]| :: inputMap[k][i] < |resultList|
      ensures |prefix| == |inputMap|
      ensures forall k | 0 <= k < |inputMap| :: prefix[k] == Prefixes(env, Concat(Picked(inputMap[k], resultList)))
      ensures forall k, j | 0 <= k < |inputMap| && 0 <= j < |prefix[k]| ::
                && |prefix[k]| == |Concat(Picked(inputMap[k], resultList))|
                && var text := Concat(Picked(inputMap[k], resultList))[j].raw.text;
                   prefix[k][j] == if env.isEn then " of " + text else text + "\U{7684}"
    {
      prefix := [];
      for k := 0 to |inputMap|
        invariant |prefix| == k
        invariant forall x | 0 <= x < k :: prefix[x] == Prefixes(env, Concat(Picked(inputMap[x], resultList)))
      {
        var acc := PrefixOfText(inputMap[k], resultList);
        prefix := prefix + [acc];
      }
    }

    /** The connected texts of all results for one text, in order. */
    method PrefixOfText(inputs: seq<nat>, resultList: seq<seq<ResultDict>>) returns (acc: seq<string>)
      requires forall i | 0 <= i < |inputs| :: inputs[i] < |resultList|
      ensures acc == Prefixes(env, Concat(Picked(inputs, resultList)))
    {
      acc := [];
      ghost var picked := Picked(inputs, resultList);
      for x := 0 to |inputs|
        invariant acc == Prefixes(env, Concat(picked[..x]))
      {
        PrefixesGrow(picked, x);
        acc := AddTexts(acc, resultList[inputs[x]]);
      }
      assert picked[..|inputs|] == picked;
    }

    lemma PrefixesGrow(lists: seq<seq<ResultDict>>, x: nat)
      requires x < |lists|
      ensures Prefixes(env, Concat(lists[..x + 1])) == Prefixes(env, Concat(lists[..x])) + Prefixes(env, lists[x])
    {
      assert lists[..x + 1][..x] == lists[..x];
    }

    method AddTexts(start: seq<string>, found: seq<ResultDict>) returns (acc: seq<string>)
      ensures acc == start + Prefixes(env, found)
    {
      acc := start;
      for i := 0 to |found|
        invariant acc == start + Prefixes(env, found[..i])
      {
        acc := acc + [Connect(env, found[i].raw.text)];
      }
      assert found[..|found|] == found;
    }

    ghost function ListsOf(inputMap: seq<seq<nat>>, resultList: seq<seq<ResultDict>>): seq<seq<seq<ResultDict>>> {
      seq(|inputMap|, k requires 0 <= k < |inputMap| => Picked(inputMap[k], resultList))
    }

    lemma ListsAnswer(root: Schema, st: State, it: Item, examples: seq<Example>, inputMap: seq<seq<nat>>,
                      resultList: seq<seq<ResultDict>>)
      requires |st.tops| == |env.datas| && ItemOk(env, root, st, it) && |inputMap| == |env.datas|
      requires forall k | 0 <= k < |inputMap| :: AsksFor(it.node, it.asked, k, examples, inputMap[k])
      requires |resultList| == |examples|
      requires forall x | 0 <= x < |examples| ::
                 Answered(env, resultList[x], examples[x], it.node.shape) && NoDup(resultList[x])
      requires forall x | 0 <= x < |examples| :: forall o <- resultList[x] :: o !in st.rels
      requires forall x, y | 0 <= x < y < |examples| :: forall o <- resultList[x] :: o !in resultList[y]
      ensures AnswersOk(env, st, it, ListsOf(inputMap, resultList))
    {
      var lists := ListsOf(inputMap, resultList);
      forall k | 0 <= k < |lists| ensures NoDup(Concat(lists[k])) {
        assert AsksFor(it.node, it.asked, k, examples, inputMap[k]);
        PickedNoDup(inputMap[k], resultList);
      }
      forall k, i | 0 <= k < |lists| && 0 <= i < |lists[k]|
        ensures forall x <- lists[k][i] :: x !in st.rels
      {
        assert AsksFor(it.node, it.asked, k, examples, inputMap[k]);
      }
      if it.asked.NotSet? {
        forall k | 0 <= k < |lists|
          ensures |lists[k]| == 1 && Answered(env, lists[k][0], RootExample(env, k, it.node.name), it.node.shape)
        {
          assert AsksFor(it.node, it.asked, k, examples, inputMap[k]);
        }
      } else {
        forall k | 0 <= k < |lists| ensures |lists[k]| == |it.asked.parents[k]| {
          assert AsksFor(it.node, it.asked, k, examples, inputMap[k]);
        }
        forall k, i | 0 <= k < |lists| && 0 <= i < |lists[k]|
          ensures Answered(env, lists[k][i],
                           ChildExample(env, k, it.asked.parents[k][i].path, it.asked.parents[k][i].raw.text,
                                        it.node.name),
                           it.node.shape)
        {
          assert AsksFor(it.node, it.asked, k, examples, inputMap[k]);
          assert it.asked.prefix[k][i] == Connect(env, it.asked.parents[k][i].raw.text);
        }
      }
    }

    /** The heap says what the state of the traversal says. */
    ghost predicate Linked(st: State, queue: seq<SchemaTree>, results: seq<Rel>)
      reads st.rels.Keys, set n | n in queue
    {
      && |queue| == |st.queue| && results == st.tops
      && (forall a | 0 <= a < |queue| :: st.queue[a] == Item(queue[a], queue[a].asked))
      && forall o <- st.rels :: o.relations == st.rels[o]
    }

    /** The nodes still to come: whole disjoint subtrees, none already visited. */
    ghost predicate Frontier(root: SchemaTree, queue: seq<SchemaTree>, visited: seq<SchemaTree>) {
      && (forall a | 0 <= a < |queue| :: queue[a].WellFormed())
      && (forall a, b | 0 <= a < b < |queue| :: queue[a].nodes !! queue[b].nodes)
      && (forall a, c | 0 <= a < |queue| && c in root.children && c in queue[a].nodes :: c == queue[a])
      && NoDup(visited) && (forall n <- visited :: n !in NodesOf(queue))
      && (set n | n in visited) + NodesOf(queue) == NodesOf(root.children)
      && forall i | 0 <= i < |visited| :: ChildrenLater(visited, queue, i)
    }

    ghost predicate ChildrenLater(visited: seq<SchemaTree>, queue: seq<SchemaTree>, i: nat)
      requires i < |visited|
    {
      forall c <- visited[i].children :: c in queue || exists j :: i < j < |visited| && visited[j] == c
    }

    lemma FrontierStep(root: SchemaTree, queue: seq<SchemaTree>, visited: seq<SchemaTree>)
      requires queue != [] && Frontier(root, queue, visited)
      ensures Frontier(root, queue[1..] + queue[0].children, visited + [queue[0]])
      ensures NodesOf(queue[1..] + queue[0].children) < NodesOf(queue)
      ensures forall c <- queue[0].children :: c in NodesOf(queue)
    {
      var n := queue[0];
      forall c <- n.children ensures c in NodesOf(queue) {
        ChildFacts(n, c);
      }
      var queue', visited' := queue[1..] + n.children, visited + [n];
      assert n in n.nodes && n in NodesOf(queue);
      forall m | m in NodesOf(queue') ensures m in NodesOf(queue) && m != n {
        var t :| t in queue' && m in t.nodes;
        if t in n.children {
          assert m in NodesOf(n.children);
        } else {
          assert t in queue[1..];
        }
      }
      forall m | m in NodesOf(queue) && m != n ensures m in NodesOf(queue') {
        var t :| t in queue && m in t.nodes;
        if t == n {
          assert m in NodesOf(n.children);
          var c :| c in n.children && m in c.nodes;
          assert c in queue';
        } else {
          assert t in queue';
        }
      }
      forall i | 0 <= i < |visited'| ensures ChildrenLater(visited', queue', i) {
        LaterStays(queue, visited, i);
      }
      FrontierApart(root, queue, visited);
    }

    lemma LaterStays(queue: seq<SchemaTree>, visited: seq<SchemaTree>, i: nat)
      requires queue != [] && i <= |visited|
      requires i < |visited| ==> ChildrenLater(visited, queue, i)
      ensures ChildrenLater(visited + [queue[0]], queue[1..] + queue[0].children, i)
    {
      var visited' := visited + [queue[0]];
      forall c <- visited'[i].children
        ensures c in queue[1..] + queue[0].children || exists j :: i < j < |visited'| && visited'[j] == c
      {
        if i < |visited| {
          if c == queue[0] {
            assert visited'[|visited|] == c;
          } else if j :| i < j < |visited| && visited[j] == c {
            assert visited'[j] == c;
          } else {
            assert c in queue;
          }
        }
      }
    }

    lemma ChildFacts(node: SchemaTree, c: SchemaTree)
      requires node.WellFormed() && c in node.children
      ensures c.WellFormed() && c in c.nodes && c.nodes <= node.nodes && node !in c.nodes
    {
      var i :| 0 <= i < |node.children| && node.children[i] == c;
      assert c.nodes <= NodesOf(node.children);
    }

    lemma FrontierApart(root: SchemaTree, queue: seq<SchemaTree>, visited: seq<SchemaTree>)
      requires queue != [] && Frontier(root, queue, visited)
      ensures var queue' := queue[1..] + queue[0].children;
              && (forall a | 0 <= a < |queue'| :: queue'[a].WellFormed())
              && (forall a, b | 0 <= a < b < |queue'| :: queue'[a].nodes !! queue'[b].nodes)
              && (forall a, c | 0 <= a < |queue'| && c in root.children && c in queue'[a].nodes :: c == queue'[a])
    {
      var queue' := queue[1..] + queue[0].children;
      forall a | 0 <= a < |queue'| ensures queue'[a].WellFormed() {
        QueueOrigin(queue, a);
      }
      forall a, b | 0 <= a < b < |queue'| ensures queue'[a].nodes !! queue'[b].nodes {
        PairApart(queue, a, b);
      }
      forall a, c | 0 <= a < |queue'| && c in root.children && c in queue'[a].nodes ensures c == queue'[a] {
        QueueOrigin(queue, a);
      }
    }

    /** A queued node was queued before or is a child of the popped one. */
    lemma QueueOrigin(queue: seq<SchemaTree>, a: nat)
      requires queue != [] && queue[0].WellFormed() && a < |queue| - 1 + |queue[0].children|
      ensures var n := queue[0]; var q := (queue[1..] + n.children)[a];
              if a < |queue| - 1 then q == queue[a + 1]
              else q == n.children[a - |queue| + 1] && q.WellFormed() && q.nodes <= n.nodes && n !in q.nodes
    {
      var n := queue[0];
      var q := (queue[1..] + n.children)[a];
      if a >= |queue| - 1 {
        assert q == n.children[a - |queue| + 1];
        ChildFacts(n, q);
      }
    }

    lemma PairApart(queue: seq<SchemaTree>, a: nat, b: nat)
      requires queue != [] && queue[0].WellFormed()
      requires forall i, j | 0 <= i < j < |queue| :: queue[i].nodes !! queue[j].nodes
      requires a < b < |queue| - 1 + |queue[0].children|
      ensures var queue' := queue[1..] + queue[0].children; queue'[a].nodes !! queue'[b].nodes
    {
      QueueOrigin(queue, a);
      QueueOrigin(queue, b);
      if a < |queue| - 1 <= b {
        assert queue[0].nodes !! queue[a + 1].nodes;
      }
    }

    /** Everything one popped node does before its children are queued. */
    method Stage(node: SchemaTree, results: seq<Rel>, ghost root: Schema, ghost st: State)
      returns (results': seq<Rel>, handed: Asked, ghost st': State, ghost lists: seq<seq<seq<ResultDict>>>)
      requires |st.tops| == |env.datas| && st.queue != [] && st.queue[0] == Item(node, node.asked) && st.tops == results
      requires ItemOk(env, root, st, st.queue[0])
      requires forall o <- st.rels :: o.relations == st.rels[o]
      modifies st.rels.Keys
      ensures Iteration(env, st, st', lists) && handed == HandDown(env, lists) && st'.tops == results'
      ensures forall o <- st'.rels :: o.relations == st'.rels[o] && (o in st.rels || fresh(o))
    {
      var inputMap, resultList, news := Predict(node, root, st);
      lists := ListsOf(inputMap, resultList);
      label asked:
      var relations;
      results', relations := Store(node, results, inputMap, resultList, root, st);
      var prefix := BuildPrefix(inputMap, resultList);
      handed := Asked(prefix, relations);
      assert prefix == HandDown(env, lists).prefix;
      assert relations == HandDown(env, lists).parents;
      assert forall o <- news :: o.relations == old@asked(o.relations);
      st' := After(st, node, lists, news, results');
      StageIsIteration(root, st, node, node.asked, lists, news, results');
    }

    /** The state of the traversal after a stage, read off the heap. */
    ghost function After(st: State, node: SchemaTree, lists: seq<seq<seq<ResultDict>>>, news: set<ResultDict>,
                         results': seq<Rel>): State
      requires st.queue != []
      reads st.rels.Keys, news
    {
      var children := node.children;
      State(st.queue[1..]
            + seq(|children|, i requires 0 <= i < |children| => Item(children[i], HandDown(env, lists))),
            map o | o in st.rels.Keys + news :: o.relations, results')
    }

    lemma StageIsIteration(root: Schema, st: State, node: SchemaTree, asked: Asked,
                           lists: seq<seq<seq<ResultDict>>>, news: set<ResultDict>, results': seq<Rel>)
      requires |st.tops| == |env.datas| && st.queue != [] && st.queue[0] == Item(node, asked)
      requires ItemOk(env, root, st, Item(node, asked)) && AnswersOk(env, st, Item(node, asked), lists)
      requires StoredAll(st, Item(node, asked), lists, results')
      requires news == News(lists) && forall o <- news :: o.relations == map[] && o !in st.rels
      ensures Iteration(env, st, After(st, node, lists, news, results'), lists)
    {
    }

    /** The dictionaries and result maps after a stage, entry by entry. */
    ghost predicate StoredAll(st: State, it: Item, lists: seq<seq<seq<ResultDict>>>, results': seq<Rel>)
      reads st.rels.Keys
    {
      && (forall o <- st.rels :: !Waits(it, o) ==> o.relations == st.rels[o])
      && (it.asked.Asked? ==>
           && |it.asked.parents| == |lists| && results' == st.tops
           && forall k, i | 0 <= k < |lists| && 0 <= i < |lists[k]| && i < |it.asked.parents[k]| ::
                var o := it.asked.parents[k][i];
                o in st.rels && o.relations == Attach(st.rels[o], it.node.name, lists[k][i]))
      && (it.asked.NotSet? ==>
           && |results'| == |st.tops| == |lists|
           && forall k | 0 <= k < |lists| && |lists[k]| == 1 ::
                results'[k] == Attach(st.tops[k], it.node.name, lists[k][0]))
    }

    method Store(node: SchemaTree, results: seq<Rel>, inputMap: seq<seq<nat>>, resultList: seq<seq<ResultDict>>,
                 ghost root: Schema, ghost st: State)
      returns (results': seq<Rel>, relations: seq<seq<ResultDict>>)
      requires |st.tops| == |env.datas| == |inputMap| && st.tops == results
      requires ItemOk(env, root, st, Item(node, node.asked)) && InRange(inputMap, |resultList|)
      requires node.asked.NotSet? ==> forall k | 0 <= k < |inputMap| :: |inputMap[k]| == 1
      requires AnswersOk(env, st, Item(node, node.asked), ListsOf(inputMap, resultList))
      requires forall o <- st.rels :: o.relations == st.rels[o]
      modifies st.rels.Keys
      ensures |relations| == |inputMap|
      ensures forall k | 0 <= k < |inputMap| :: relations[k] == Concat(Picked(inputMap[k], resultList))
      ensures StoredAll(st, Item(node, node.asked), ListsOf(inputMap, resultList), results')
    {
      if node.asked.NotSet? {
        results', relations := StoreTop(node.name, inputMap, resultList, results);
        TopParents(root, st, node, inputMap, resultList, relations);
      } else {
        results' := results;
        relations := StoreLater(node.name, node.asked.parents, inputMap, resultList, root, st, Item(node, node.asked));
      }
    }

    ghost predicate InRange(inputMap: seq<seq<nat>>, n: nat) {
      forall k, i | 0 <= k < |inputMap| && 0 <= i < |inputMap[k]| :: inputMap[k][i] < n
    }

    /** Build the questions and put them to the model. */
    method Predict(node: SchemaTree, ghost root: Schema, ghost st: State)
      returns (inputMap: seq<seq<nat>>, resultList: seq<seq<ResultDict>>, ghost news: set<ResultDict>)
      requires |st.tops| == |env.datas| && ItemOk(env, root, st, Item(node, node.asked))
      ensures |inputMap| == |env.datas| && InRange(inputMap, |resultList|)
      ensures node.asked.NotSet? ==> forall k | 0 <= k < |inputMap| :: |inputMap[k]| == 1
      ensures AnswersOk(env, st, Item(node, node.asked), ListsOf(inputMap, resultList))
      ensures news == News(ListsOf(inputMap, resultList))
      ensures forall o <- news :: fresh(o) && o.relations == map[] && o !in st.rels
    {
      var examples;
      examples, inputMap := BuildExamples(node);
      resultList := Ask(examples, node.shape);
      forall k | 0 <= k < |inputMap| ensures AsksFor(node, node.asked, k, examples, inputMap[k]) {
      }
      ListsAnswer(root, st, Item(node, node.asked), examples, inputMap, resultList);
      news := News(ListsOf(inputMap, resultList));
      forall o <- news ensures exists x :: 0 <= x < |resultList| && o in resultList[x] {
        NewsAreAnswers(inputMap, resultList, o);
      }
    }

    lemma NewsAreAnswers(inputMap: seq<seq<nat>>, resultList: seq<seq<ResultDict>>, o: ResultDict)
      requires o in News(ListsOf(inputMap, resultList))
      ensures exists x :: 0 <= x < |resultList| && o in resultList[x]
    {
      var k :| 0 <= k < |inputMap| && o in Concat(ListsOf(inputMap, resultList)[k]);
      ConcatMember(Picked(inputMap[k], resultList), o);
      var i :| 0 <= i < |inputMap[k]| && o in Picked(inputMap[k], resultList)[i];
      assert o in resultList[inputMap[k][i]];
    }

    lemma TopParents(root: Schema, st: State, node: SchemaTree, inputMap: seq<seq<nat>>,
                     resultList: seq<seq<ResultDict>>, relations: seq<seq<ResultDict>>)
      requires |st.tops| == |env.datas| == |inputMap|
      requires ItemOk(env, root, st, Item(node, NotSet)) && InRange(inputMap, |resultList|)
      requires AnswersOk(env, st, Item(node, NotSet), ListsOf(inputMap, resultList))
      requires |relations| == |inputMap|
      requires forall k | 0 <= k < |inputMap| && |inputMap[k]| == 1 ::
                 relations[k] == HandedParents(st.tops[k], node.name, resultList[inputMap[k][0]])
      ensures forall k | 0 <= k < |inputMap| :: relations[k] == Concat(Picked(inputMap[k], resultList))
    {
      forall k | 0 <= k < |inputMap| ensures relations[k] == Concat(Picked(inputMap[k], resultList)) {
        assert |ListsOf(inputMap, resultList)[k]| == 1;
        assert node.name !in st.tops[k];
        assert Picked(inputMap[k], resultList) == [resultList[inputMap[k][0]]];
        ConcatOne(resultList[inputMap[k][0]]);
      }
    }

    /** Store under the parents and read the next stage's parents back. `it` is the node
        with what it was asked with. */
    method StoreLater(name: string, parents: seq<seq<ResultDict>>, inputMap: seq<seq<nat>>,
                      resultList: seq<seq<ResultDict>>, ghost root: Schema, ghost st: State, ghost it: Item)
      returns (relations: seq<seq<ResultDict>>)
      requires |st.tops| == |env.datas| == |inputMap|
      requires it.asked.Asked? && it.asked.parents == parents && it.node.name == name
      requires ItemOk(env, root, st, it) && InRange(inputMap, |resultList|)
      requires AnswersOk(env, st, it, ListsOf(inputMap, resultList))
      requires forall o <- st.rels :: o.relations == st.rels[o]
      modifies st.rels.Keys
      ensures |relations| == |inputMap|
      ensures forall k | 0 <= k < |inputMap| :: relations[k] == Concat(Picked(inputMap[k], resultList))
      ensures forall k, i | 0 <= k < |inputMap| && 0 <= i < |inputMap[k]| && i < |parents[k]| ::
                var o := parents[k][i];
                o in st.rels && o.relations == Attach(st.rels[o], name, Picked(inputMap[k], resultList)[i])
      ensures forall o <- st.rels :: !Waits(it, o) ==> o.relations == st.rels[o]
    {
      MatchingCounts(root, st, it, inputMap, resultList);
      WaitingDicts(root, st, it);
      StoreRelations(name, inputMap, resultList, parents);
      relations := CollectRelations(name, parents);
      StoredArePicked(st, name, parents, inputMap, resultList);
    }

    lemma StoredArePicked(st: State, name: string, parents: seq<seq<ResultDict>>, inputMap: seq<seq<nat>>,
                          resultList: seq<seq<ResultDict>>)
      requires |parents| == |inputMap| && InRange(inputMap, |resultList|)
      requires forall k | 0 <= k < |parents| ::
                 && |inputMap[k]| == |parents[k]|
                 && forall i | 0 <= i < |parents[k]| ::
                      && parents[k][i] in st.rels && name !in st.rels[parents[k][i]]
                      && parents[k][i].relations == Attach(st.rels[parents[k][i]], name, resultList[inputMap[k][i]])
      ensures forall k | 0 <= k < |parents| :: Stored(name, parents[k]) == Picked(inputMap[k], resultList)
    {
      forall k | 0 <= k < |parents| ensures Stored(name, parents[k]) == Picked(inputMap[k], resultList) {
        StoredIsPicked(st, name, parents[k], inputMap[k], resultList);
      }
    }

    /** One answer list per parent, and every parent is a known dictionary of its text. */
    lemma MatchingCounts(root: Schema, st: State, it: Item, inputMap: seq<seq<nat>>, resultList: seq<seq<ResultDict>>)
      requires |st.tops| == |env.datas| == |inputMap| && it.asked.Asked?
      requires ItemOk(env, root, st, it) && AnswersOk(env, st, it, ListsOf(inputMap, resultList))
      ensures var parents := it.asked.parents;
              && |parents| == |inputMap|
              && forall k | 0 <= k < |parents| ::
                   && |inputMap[k]| == |parents[k]| && NoDup(parents[k])
                   && forall o <- parents[k] :: o.k == k && o in st.rels && it.node.name !in st.rels[o]
    {
      forall k | 0 <= k < |inputMap| ensures |inputMap[k]| == |it.asked.parents[k]| {
        assert |ListsOf(inputMap, resultList)[k]| == |inputMap[k]|;
      }
    }

    /** The parents of a waiting node are exactly the dictionaries that wait for it. */
    lemma WaitingDicts(root: Schema, st: State, it: Item)
      requires |st.tops| == |env.datas| && ItemOk(env, root, st, it) && it.asked.Asked?
      ensures Dicts(it.asked.parents) <= st.rels.Keys
      ensures forall o <- st.rels :: !Waits(it, o) ==> o !in Dicts(it.asked.parents)
    {
      forall o <- Dicts(it.asked.parents) ensures o in st.rels && Waits(it, o) {
        var k :| 0 <= k < |it.asked.parents| && o in it.asked.parents[k];
        assert o.k == k;
      }
    }

    lemma StoredIsPicked(st: State, name: string, os: seq<ResultDict>, ids: seq<nat>, resultList: seq<seq<ResultDict>>)
      requires |os| == |ids| && forall i | 0 <= i < |ids| :: ids[i] < |resultList|
      requires forall i | 0 <= i < |os| ::
                 && os[i] in st.rels && name !in st.rels[os[i]]
                 && os[i].relations == Attach(st.rels[os[i]], name, resultList[ids[i]])
      ensures Stored(name, os) == Picked(ids, resultList)
    {
    }

    /** The whole traversal. `visited` is the order in which nodes are popped; `rels` is
        what the dictionaries created on the way contain in the end. */
    method MultiStagePredict(root: SchemaTree)
      returns (results: seq<Rel>, ghost rels: map<ResultDict, Rel>, ghost visited: seq<SchemaTree>)
      requires root.WellFormed() && DistinctSiblings(root.shape)
      requires forall c <- root.children :: c.asked == NotSet
      modifies root.nodes
      ensures |results| == |env.datas|
      ensures forall k | 0 <= k < |env.datas| ::
                GroupsMatch(rels, results[k], ExpectGroups(env, Text(k), root.shape.children))
      ensures forall k | 0 <= k < |env.datas| ::
                && OnlyNames(results[k], root.shape.children)
                && forall c <- root.shape.children ::
                     Stores(env, rels, results[k], Example(env.datas[k], HalfWidth(c.name), k, [], c.name), c)
      ensures forall o <- rels ::
                && o.k < |env.datas| && OnlyNames(rels[o], o.shape.children)
                && forall c, p | c in o.shape.children && Reads(env, p, o.raw.text, c.name) ::
                     Stores(env, rels, rels[o], Example(env.datas[o.k], p, o.k, o.path, c.name), c)
      ensures forall o <- rels :: fresh(o) && o.relations == rels[o]
      ensures forall c <- root.children :: c.asked == NotSet
      ensures env.datas != [] ==>
        && NoDup(visited) && (set n | n in visited) == root.nodes - {root}
        && (forall i | 0 <= i < |visited| :: ChildrenLater(visited, [], i))
        && visited == root.children + Concat(Below(visited))
    {
      results := seq(|env.datas|, _ => map[]);
      rels, visited := map[], [];
      if |env.datas| < 1 {
        return;
      }
      ghost var st := Start(env, root.children);
      StartInv(env, root);
      assert Below([]) == [];
      results, st, visited := VisitAll(root, results, st);
      rels := st.rels;
      forall k | 0 <= k < |env.datas| {
        FinishedIsReference(env, root.shape, st, k);
      }
      AllAnswersStored(env, root.shape, st);
    }

    /** The loop over the queue. */
    method VisitAll(root: SchemaTree, results: seq<Rel>, ghost st: State)
      returns (results': seq<Rel>, ghost st': State, ghost visited: seq<SchemaTree>)
      requires Inv(env, root.shape, st) && Linked(st, root.children, results) && Frontier(root, root.children, [])
      requires NodesOf(root.children) <= root.nodes - {root} && st.rels == map[]
      modifies NodesOf(root.children)
      ensures Inv(env, root.shape, st') && Linked(st', [], results') && Frontier(root, [], visited)
      ensures visited == root.children + Concat(Below(visited))
      ensures forall o <- st'.rels :: fresh(o)
      ensures forall c <- root.children :: c.asked == old(c.asked)
    {
      var queue := root.children;
      results', st', visited := results, st, [];
      while |queue| > 0
        invariant Inv(env, root.shape, st') && Linked(st', queue, results')
        invariant Frontier(root, queue, visited) && NodesOf(queue) <= NodesOf(root.children)
        invariant visited + queue == root.children + Concat(Below(visited))
        invariant forall o <- st'.rels :: fresh(o)
        invariant forall c <- root.children :: c.asked == old(c.asked)
        decreases NodesOf(queue)
      {
        LevelStep(root, queue, visited);
        queue, results', st', visited := VisitNext(queue, results', root, st', visited);
      }
    }

    /** The children of these nodes, node by node. */
    ghost function Below(visited: seq<SchemaTree>): seq<seq<SchemaTree>> {
      seq(|visited|, i requires 0 <= i < |visited| => visited[i].children)
    }

    /** Nodes are visited level by level: the waiting ones are the children of the visited ones
        in the order in which those were visited. */
    lemma LevelStep(root: SchemaTree, queue: seq<SchemaTree>, visited: seq<SchemaTree>)
      requires queue != [] && visited + queue == root.children + Concat(Below(visited))
      ensures var visited', queue' := visited + [queue[0]], queue[1..] + queue[0].children;
              visited' + queue' == root.children + Concat(Below(visited'))
    {
      var visited' := visited + [queue[0]];
      assert Below(visited')[..|visited|] == Below(visited);
      assert Concat(Below(visited')) == Concat(Below(visited)) + queue[0].children;
      assert visited' + queue[1..] == visited + queue;
      var below, children := Concat(Below(visited)), queue[0].children;
      assert visited' + (queue[1..] + children) == (visited' + queue[1..]) + children;
      assert root.children + (below + children) == (root.children + below) + children;
    }

    /** One iteration with what the loop keeps. */
    method VisitNext(queue: seq<SchemaTree>, results: seq<Rel>, root: SchemaTree, ghost st: State,
                     ghost visited: seq<SchemaTree>)
      returns (queue': seq<SchemaTree>, results': seq<Rel>, ghost st': State, ghost visited': seq<SchemaTree>)
      requires queue != [] && Inv(env, root.shape, st) && Linked(st, queue, results)
      requires Frontier(root, queue, visited)
      modifies st.rels.Keys, NodesOf(queue)
      ensures Inv(env, root.shape, st') && Linked(st', queue', results')
      ensures Frontier(root, queue', visited') && NodesOf(queue') < NodesOf(queue)
      ensures queue' == queue[1..] + queue[0].children && visited' == visited + [queue[0]]
      ensures forall o <- st'.rels :: o in st.rels || fresh(o)
      ensures forall c <- root.children :: c.asked == old(c.asked)
    {
      FrontierStep(root, queue, visited);
      visited' := visited + [queue[0]];
      queue', results', st' := VisitFirst(queue, results, root, st);
    }

    /** One iteration: pop a node, process it, hand down to its children and queue them. */
    method VisitFirst(queue: seq<SchemaTree>, results: seq<Rel>, root: SchemaTree, ghost st: State)
      returns (queue': seq<SchemaTree>, results': seq<Rel>, ghost st': State)
      requires queue != [] && Inv(env, root.shape, st) && Linked(st, queue, results)
      requires forall a, b | 0 <= a < b < |queue| :: queue[a].nodes !! queue[b].nodes
      requires forall a, c | 0 <= a < |queue| && c in root.children && c in queue[a].nodes :: c == queue[a]
      requires forall a | 0 <= a < |queue| :: queue[a].WellFormed()
      modifies st.rels.Keys, set c | c in queue[0].children
      ensures queue' == queue[1..] + queue[0].children
      ensures Inv(env, root.shape, st') && Linked(st', queue', results')
      ensures forall o <- st'.rels :: o in st.rels || fresh(o)
      ensures forall c <- root.children :: c.asked == old(c.asked)
    {
      var handed;
      results', handed, st' := SafeStage(queue[0], results, root.shape, st);
      ghost var asked := seq(|queue|, a requires 0 <= a < |queue| reads queue => queue[a].asked);
      queue' := QueueChildren(queue, root, handed);
      QueueLinked(queue, queue', st, st', handed, asked);
    }

    /** The queue of the traversal names the nodes and what they were handed. */
    lemma QueueLinked(queue: seq<SchemaTree>, queue': seq<SchemaTree>, st: State, st': State, handed: Asked,
                      asked: seq<Asked>)
      requires st.queue != [] && Moves(st, st', handed) && |queue| == |st.queue| == |asked|
      requires forall a | 0 <= a < |queue| :: st.queue[a] == Item(queue[a], asked[a])
      requires queue' == queue[1..] + queue[0].children
      requires forall a | 0 <= a < |queue| - 1 :: queue'[a].asked == asked[a + 1]
      requires forall a | |queue| - 1 <= a < |queue'| :: queue'[a].asked == handed
      ensures |queue'| == |st'.queue|
      ensures forall a | 0 <= a < |queue'| :: st'.queue[a] == Item(queue'[a], queue'[a].asked)
    {
    }

    /** The first node leaves the queue and its children join it with what they are handed. */
    ghost predicate Moves(st: State, st': State, handed: Asked)
      requires st.queue != []
    {
      var n, children := |st.queue| - 1, st.queue[0].node.children;
      && |st'.queue| == n + |children|
      && (forall a | 0 <= a < n :: st'.queue[a] == st.queue[a + 1])
      && forall a | n <= a < n + |children| :: st'.queue[a] == Item(children[a - n], handed)
    }

    /** A stage that keeps the invariant. */
    method SafeStage(node: SchemaTree, results: seq<Rel>, ghost root: Schema, ghost st: State)
      returns (results': seq<Rel>, handed: Asked, ghost st': State)
      requires Inv(env, root, st) && st.tops == results
      requires st.queue != [] && st.queue[0] == Item(node, node.asked)
      requires forall o <- st.rels :: o.relations == st.rels[o]
      modifies st.rels.Keys
      ensures Inv(env, root, st') && Moves(st, st', handed) && st'.tops == results'
      ensures forall o <- st'.rels :: o.relations == st'.rels[o] && (o in st.rels || fresh(o))
    {
      assert ItemOk(env, root, st, st.queue[0]);
      ghost var lists;
      results', handed, st', lists := Stage(node, results, root, st);
      IterationKeepsInv(env, root, st, st', lists);
      forall a | 0 <= a < |st'.queue| {
        QueueEntry(env, st, st', lists, a);
      }
    }

    /** Hand down to the children of the first node and put them in the queue in its place. */
    method QueueChildren(queue: seq<SchemaTree>, root: SchemaTree, handed: Asked) returns (queue': seq<SchemaTree>)
      requires queue != []
      requires forall a, b | 0 <= a < b < |queue| :: queue[a].nodes !! queue[b].nodes
      requires forall a, c | 0 <= a < |queue| && c in root.children && c in queue[a].nodes :: c == queue[a]
      requires forall a | 0 <= a < |queue| :: queue[a].WellFormed()
      modifies set c | c in queue[0].children
      ensures queue' == queue[1..] + queue[0].children
      ensures forall a | 0 <= a < |queue| - 1 :: queue'[a].asked == old(queue[a + 1].asked)
      ensures forall a | |queue| - 1 <= a < |queue'| :: queue'[a].asked == handed
      ensures forall c <- root.children :: c.asked == old(c.asked)
    {
      var node := queue[0];
      forall c <- node.children ensures c !in root.children && c !in queue[1..] {
        ChildFacts(node, c);
      }
      AssignChildren(node, handed);
      queue' := queue[1..] + node.children;
      forall a | 0 <= a < |queue| - 1 ensures queue'[a].asked == old(queue[a + 1].asked) {
        assert queue'[a] == queue[1..][a] && queue[1..][a] in queue[1..];
      }
    }

    method AssignChildren(node: SchemaTree, handed: Asked)
      modifies set c | c in node.children
      ensures forall c <- node.children :: c.asked == handed
    {
      for i := 0 to |node.children|
        invariant forall x | 0 <= x < i :: node.children[x].asked == handed
      {
        node.children[i].asked := handed;
      }
    }
  }

  lemma ConcatOne<T>(x: seq<T>)
    ensures Concat([x]) == x
  {
    assert [x][..0] == [];
  }

  /** Disjoint duplicate-free lists concatenate to a duplicate-free list. */
  lemma {:induction false} ConcatNoDup<T>(lists: seq<seq<T>>)
    requires forall x | 0 <= x < |lists| :: NoDup(lists[x])
    requires forall x, y | 0 <= x < y < |lists| :: forall o <- lists[x] :: o !in lists[y]
    ensures NoDup(Concat(lists))
  {
    if lists != [] {
      var n := |lists| - 1;
      ConcatNoDup(lists[..n]);
      forall o | o in Concat(lists[..n]) ensures o !in lists[n] {
        ConcatMember(lists[..n], o);
        var i :| 0 <= i < n && o in lists[..n][i];
        assert o in lists[i];
      }
      AppendNoDup(Concat(lists[..n]), lists[n]);
    }
  }

  lemma AppendNoDup<T>(a: seq<T>, b: seq<T>)
    requires NoDup(a) && NoDup(b) && forall o <- a :: o !in b
    ensures NoDup(a + b)
  {
    forall i, j | 0 <= i < j < |a + b| ensures (a + b)[i] != (a + b)[j] {
      if i < |a| <= j {
        assert a[i] in a && b[j - |a|] in b;
      }
    }
  }

  lemma PickedNoDup(ids: seq<nat>, resultList: seq<seq<ResultDict>>)
    requires forall i, j | 0 <= i < j < |ids| :: ids[i] < ids[j]
    requires forall x | 0 <= x < |resultList| :: NoDup(resultList[x])
    requires forall x, y | 0 <= x < y < |resultList| :: forall o <- resultList[x] :: o !in resultList[y]
    ensures NoDup(Concat(Picked(ids, resultList)))
  {
    ConcatNoDup(Picked(ids, resultList));
  }

  /** The answer lists that belong to one text. */
  ghost function Picked(ids: seq<nat>, resultList: seq<seq<ResultDict>>): seq<seq<ResultDict>> {
    seq(|ids|, i requires 0 <= i < |ids| => if ids[i] < |resultList| then resultList[ids[i]] else [])
  }
}
