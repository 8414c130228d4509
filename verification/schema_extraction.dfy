/** Multi-stage extraction: what the predictor is asked, the depth-first reference
    result, and the invariant of the breadth-first traversal. */
module SchemaExtraction {

  /** A schema tree as a value. */
  datatype Schema = Schema(name: string, children: seq<Schema>)

  predicate DistinctNames(cs: seq<Schema>) {
    forall i, j | 0 <= i < j < |cs| :: cs[i].name != cs[j].name
  }

  /** No two siblings anywhere in the tree share a name. */
  predicate DistinctSiblings(s: Schema) {
    DistinctNames(s.children) && forall i | 0 <= i < |s.children| :: DistinctSiblings(s.children[i])
  }

  /** One extraction as the predictor reports it. */
  datatype Raw = Raw(text: string, start: int, end: int, probability: real)

  /** Where a result sits: (schema name, number) from the top down. */
  type Path = seq<(string, nat)>

  /** One question to the predictor. `k`, `path` and `name` say who asks; the predictor
      may answer every question of a run differently. */
  datatype Example = Example(text: string, prompt: string, k: nat, path: Path, name: string)

  /** `clsSplit` finds the "[a, b]" suffix of an English classification name. */
  datatype Env = Env(
    datas: seq<string>, isEn: bool, answers: Example -> seq<Raw>, clsSplit: string -> (bool, string, string))

  /** Full-width ASCII becomes half-width; the ideographic space stays as it is. */
  function HalfWidth(s: string): (r: string)
    ensures |r| == |s|
    ensures forall i | 0 <= i < |s| :: 0xFF01 <= s[i] as int <= 0xFF5E ==> r[i] as int + 0xFEE0 == s[i] as int
    ensures forall i | 0 <= i < |s| :: !(0xFF01 <= s[i] as int <= 0xFF5E) ==> r[i] == s[i]
  {
    seq(|s|, i requires 0 <= i < |s| =>
      if 0xFF01 <= s[i] as int <= 0xFF5E then (s[i] as int - 0xFEE0) as char else s[i])
  }

  /** The connective between a parent's text and the child's name. */
  function Connect(env: Env, text: string): string {
    if env.isEn then " of " + text else text + "\U{7684}"
  }

  function Prompt(env: Env, name: string, prefix: string): string {
    HalfWidth(
      if env.isEn then
        var (isCls, head, options) := env.clsSplit(name);
        if isCls then head + prefix + " " + options else name + prefix
      else prefix + name)
  }

  /** What a child node's question reads, given its parent's text: in Chinese the parent's
      text, the connective and the name; in English the name, " of " and the parent's text, with
      the options of a classification name at the end. All of it is half-width. */
  predicate Reads(env: Env, prompt: string, text: string, name: string) {
    if !env.isEn then
      && |prompt| == |text| + 1 + |name|
      && prompt[..|text|] == HalfWidth(text) && prompt[|text|] == '\U{7684}' && prompt[|text| + 1..] == HalfWidth(name)
    else if !env.clsSplit(name).0 then prompt == HalfWidth(name) + " of " + HalfWidth(text)
    else prompt == HalfWidth(env.clsSplit(name).1) + " of " + HalfWidth(text) + " " + HalfWidth(env.clsSplit(name).2)
  }

  lemma PromptReads(env: Env, text: string, name: string)
    ensures Reads(env, Prompt(env, name, Connect(env, text)), text, name)
  {
    var (isCls, head, options) := env.clsSplit(name);
    if !env.isEn {
      HalfWidthAppend(text + "\U{7684}", name);
      HalfWidthAppend(text, "\U{7684}");
    } else if isCls {
      HalfWidthAppend(head + (" of " + text) + " ", options);
      HalfWidthAppend(head + (" of " + text), " ");
      HalfWidthAppend(head, " of " + text);
      HalfWidthAppend(" of ", text);
    } else {
      HalfWidthAppend(name, " of " + text);
      HalfWidthAppend(" of ", text);
    }
    assert HalfWidth(" of ") == " of " && HalfWidth(" ") == " " && HalfWidth("\U{7684}") == "\U{7684}";
  }

  lemma HalfWidthAppend(a: string, b: string)
    ensures HalfWidth(a + b) == HalfWidth(a) + HalfWidth(b)
  {
  }

  /** That determines the question: */
  lemma ReadsOnce(env: Env, p: string, q: string, text: string, name: string)
    requires Reads(env, p, text, name) && Reads(env, q, text, name)
    ensures p == q
  {
    if !env.isEn {
      assert p == p[..|text|] + [p[|text|]] + p[|text| + 1..];
      assert q == q[..|text|] + [q[|text|]] + q[|text| + 1..];
    }
  }

  /** Parents whose texts differ, be it in length or in a half-width character, are asked
      different questions. */
  lemma DifferentParents(env: Env, p: string, q: string, t: string, u: string, name: string)
    requires Reads(env, p, t, name) && Reads(env, q, u, name) && HalfWidth(t) != HalfWidth(u)
    ensures p != q
  {
    if env.isEn {
      var (isCls, head, options) := env.clsSplit(name);
      if isCls {
        SamePrefix(HalfWidth(head) + " of ", HalfWidth(t), HalfWidth(u), " " + HalfWidth(options));
        assert p == HalfWidth(head) + " of " + HalfWidth(t) + (" " + HalfWidth(options));
        assert q == HalfWidth(head) + " of " + HalfWidth(u) + (" " + HalfWidth(options));
      } else {
        SamePrefix(HalfWidth(name) + " of ", HalfWidth(t), HalfWidth(u), "");
      }
    }
  }

  lemma SamePrefix(a: string, t: string, u: string, b: string)
    requires t != u
    ensures a + t + b != a + u + b
  {
    if |t| == |u| {
      assert t == (a + t + b)[|a|..|a| + |t|] && u == (a + u + b)[|a|..|a| + |u|];
    } else {
      assert |a + t + b| != |a + u + b|;
    }
  }

  function RootExample(env: Env, k: nat, name: string): Example
    requires k < |env.datas|
  {
    Example(env.datas[k], HalfWidth(name), k, [], name)
  }

  function ChildExample(env: Env, k: nat, path: Path, parentText: string, name: string): Example
    requires k < |env.datas|
  {
    Example(env.datas[k], Prompt(env, name, Connect(env, parentText)), k, path, name)
  }

  /** Who asks: a whole text, or a result found in text `k`. */
  datatype Asker = Text(k: nat) | Result(k: nat, path: Path, text: string)

  function Question(env: Env, who: Asker, name: string): Example
    requires who.k < |env.datas|
  {
    match who
    case Text(k) => RootExample(env, k, name)
    case Result(k, path, text) => ChildExample(env, k, path, text, name)
  }

  // ---------- Depth-first reference result ----------

  datatype Extracted = Extracted(raw: Raw, relations: seq<Group>)
  datatype Group = Group(name: string, items: seq<Extracted>)

  /** All results of one question, each with everything extracted under it alone. */
  function Expect(env: Env, ex: Example, c: Schema): seq<Extracted>
    requires ex.k < |env.datas|
    decreases c, 1
  {
    seq(|env.answers(ex)|, j requires 0 <= j < |env.answers(ex)| =>
      var raw := env.answers(ex)[j];
      Extracted(raw, ExpectGroups(env, Result(ex.k, ex.path + [(ex.name, j)], raw.text), c.children)))
  }

  /** The nonempty groups, in schema order. */
  function ExpectGroups(env: Env, who: Asker, cs: seq<Schema>): seq<Group>
    requires who.k < |env.datas|
    decreases cs, 0
  {
    if cs == [] then [] else
    var items := Expect(env, Question(env, who, cs[0].name), cs[0]);
    (if items == [] then [] else [Group(cs[0].name, items)]) + ExpectGroups(env, who, cs[1..])
  }

  // ---------- The objects of the traversal ----------

  /** A result dictionary. An absent "relations" key is an empty map. `k`, `path` and
      `shape` record which text and which schema node produced it. */
  class ResultDict {
    const raw: Raw
    const k: nat
    const path: Path
    ghost const shape: Schema
    var relations: map<string, seq<ResultDict>>

    constructor (raw: Raw, k: nat, path: Path, ghost shape: Schema)
      ensures this.raw == raw && this.k == k && this.path == path && this.shape == shape
      ensures relations == map[]
    {
      this.raw := raw;
      this.k := k;
      this.path := path;
      this.shape := shape;
      this.relations := map[];
    }
  }

  datatype Asked = NotSet | Asked(prefix: seq<seq<string>>, parents: seq<seq<ResultDict>>)

  /** A schema node. `prefix` and `parent_relations` are always assigned together. */
  class SchemaTree {
    const name: string
    const children: seq<SchemaTree>
    ghost const shape: Schema
    ghost const nodes: set<SchemaTree>
    var asked: Asked

    constructor (name: string, children: seq<SchemaTree>)
      requires forall i | 0 <= i < |children| :: children[i].WellFormed()
      requires forall i, j | 0 <= i < j < |children| :: children[i].nodes !! children[j].nodes
      ensures WellFormed() && this.name == name && this.children == children && asked == NotSet
      ensures fresh(this)
      ensures shape == Schema(name, seq(|children|, i requires 0 <= i < |children| => children[i].shape))
      ensures nodes == {this} + NodesOf(children)
    {
      this.name := name;
      this.children := children;
      this.shape := Schema(name, seq(|children|, i requires 0 <= i < |children| => children[i].shape));
      this.nodes := {this} + NodesOf(children);
      this.asked := NotSet;
      new;
      forall i | 0 <= i < |children| ensures this !in children[i].nodes {
      }
    }

    /** A finite tree of pairwise distinct objects whose names mirror `shape`. */
    ghost predicate WellFormed()
      decreases shape
    {
      && name == shape.name && |children| == |shape.children|
      && (forall i | 0 <= i < |children| ::
           children[i].shape == shape.children[i] && children[i].WellFormed())
      && nodes == {this} + NodesOf(children) && this !in NodesOf(children)
      && forall i, j | 0 <= i < j < |children| :: children[i].nodes !! children[j].nodes
    }
  }

  ghost function NodesOf(ts: seq<SchemaTree>): set<SchemaTree> {
    set t, n | t in ts && n in t.nodes :: n
  }
}
