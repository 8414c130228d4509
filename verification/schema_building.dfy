/** Building the schema tree from the schema a user writes: names, and dictionaries from a
    name to a name or a list. */
module SchemaBuilding {
  import opened SchemaExtraction

  datatype Element = Name(s: string) | Dict(entries: seq<Entry>) | OtherElement

  datatype Entry = Entry(key: string, value: Nested)

  datatype Nested = One(s: string) | Several(elements: seq<Element>) | OtherValue

  datatype Shapes = Shapes(list: seq<Schema>) | Invalid

  datatype Built<T> = Built(value: T) | TypeError

  function Append(a: Shapes, b: Shapes): Shapes {
    if a.Invalid? || b.Invalid? then Invalid else Shapes(a.list + b.list)
  }

  /** The siblings a list of elements stands for. */
  function ShapesOf(schema: seq<Element>): Shapes
    decreases schema
  {
    if schema == [] then Shapes([])
    else Append(ShapesOf(schema[..|schema| - 1]), ElementShapes(schema[|schema| - 1]))
  }

  function ElementShapes(e: Element): Shapes
    decreases e
  {
    match e
    case Name(s) => Shapes([Schema(s, [])])
    case Dict(entries) => EntryShapes(entries)
    case OtherElement => Invalid
  }

  function EntryShapes(entries: seq<Entry>): Shapes
    decreases entries
  {
    if entries == [] then Shapes([])
    else
      var below := NestedShapes(entries[|entries| - 1].value);
      Append(EntryShapes(entries[..|entries| - 1]),
             if below.Invalid? then Invalid else Shapes([Schema(entries[|entries| - 1].key, below.list)]))
  }

  function NestedShapes(v: Nested): Shapes
    decreases v
  {
    match v
    case One(s) => Shapes([Schema(s, [])])
    case Several(elements) => ShapesOf(elements)
    case OtherValue => Invalid
  }

  // ---------- What the siblings are ----------

  /** The plain way to write siblings down. */
  function Written(cs: seq<Schema>): seq<Element> {
    seq(|cs|, i requires 0 <= i < |cs| => WrittenOne(cs[i]))
  }

  function WrittenOne(c: Schema): Element
    decreases c, 0
  {
    if c.children == [] then Name(c.name)
    else
      var below := seq(|c.children|, i requires 0 <= i < |c.children| => WrittenOne(c.children[i]));
      Dict([Entry(c.name, Several(below))])
  }

  /** Reading back what was written gives the same trees, at any depth. */
  lemma {:induction false} WrittenReadsBack(cs: seq<Schema>)
    ensures ShapesOf(Written(cs)) == Shapes(cs)
    decreases cs
  {
    if cs != [] {
      var n := |cs| - 1;
      var c := cs[n];
      assert Written(cs)[..n] == Written(cs[..n]);
      WrittenReadsBack(cs[..n]);
      if c.children != [] {
        WrittenReadsBack(c.children);
        assert Written(c.children)
            == seq(|c.children|, i requires 0 <= i < |c.children| => WrittenOne(c.children[i]));
        OneKey(c.name, Several(Written(c.children)));
      }
      assert ElementShapes(WrittenOne(c)) == Shapes([c]);
      assert cs == cs[..n] + [c];
    }
  }

  /** The siblings of a longer list are those of its parts, in order. */
  lemma {:induction false} SiblingsAdd(a: seq<Element>, b: seq<Element>)
    ensures ShapesOf(a + b).Invalid? <==> ShapesOf(a).Invalid? || ShapesOf(b).Invalid?
    ensures ShapesOf(a + b).Shapes? ==> ShapesOf(a + b).list == ShapesOf(a).list + ShapesOf(b).list
  {
    if b == [] {
      assert a + b == a;
    } else {
      var n := |b| - 1;
      SiblingsAdd(a, b[..n]);
      assert (a + b)[..|a + b| - 1] == a + b[..n];
    }
  }

  lemma OneElement(e: Element)
    ensures ShapesOf([e]) == ElementShapes(e)
  {
    assert [e][..0] == [];
    AppendNothing(ElementShapes(e));
  }

  lemma OneKey(key: string, v: Nested)
    ensures ElementShapes(Dict([Entry(key, v)]))
         == if NestedShapes(v).Invalid? then Invalid else Shapes([Schema(key, NestedShapes(v).list)])
  {
    assert [Entry(key, v)][..0] == [];
    assert EntryShapes([]) == Shapes([]);
    AppendNothing(if NestedShapes(v).Invalid? then Invalid else Shapes([Schema(key, NestedShapes(v).list)]));
  }

  /** A dictionary with several keys stands for one dictionary a key, in order. */
  lemma {:induction false} KeysInOrder(entries: seq<Entry>)
    ensures ShapesOf([Dict(entries)]) == ShapesOf(seq(|entries|, i requires 0 <= i < |entries| => Dict([entries[i]])))
  {
    var dicts := seq(|entries|, i requires 0 <= i < |entries| => Dict([entries[i]]));
    OneElement(Dict(entries));
    if entries != [] {
      var n := |entries| - 1;
      assert dicts[..n] == seq(n, i requires 0 <= i < n => Dict([entries[..n][i]]));
      KeysInOrder(entries[..n]);
      OneElement(Dict(entries[..n]));
      OneKey(entries[n].key, entries[n].value);
      assert dicts[n] == Dict([Entry(entries[n].key, entries[n].value)]);
    }
  }

  lemma AppendNothing(a: Shapes)
    ensures Append(Shapes([]), a) == a && Append(a, Shapes([])) == a
  {
    if a.Shapes? {
      assert [] + a.list == a.list && a.list + [] == a.list;
    }
  }

  /** A string under a key is a list of one string; and a key with a list under it is a node of
      that name with the list's trees as children. */
  lemma UnderAKey(key: string, s: string, elements: seq<Element>)
    ensures ShapesOf([Dict([Entry(key, One(s))])]) == Shapes([Schema(key, [Schema(s, [])])])
    ensures ShapesOf([Dict([Entry(key, Several([Name(s)]))])]) == Shapes([Schema(key, [Schema(s, [])])])
    ensures ShapesOf(elements).Shapes? ==>
              ShapesOf([Dict([Entry(key, Several(elements))])]) == Shapes([Schema(key, ShapesOf(elements).list)])
  {
    OneElement(Name(s));
    OneElement(Dict([Entry(key, One(s))]));
    OneElement(Dict([Entry(key, Several([Name(s)]))]));
    OneElement(Dict([Entry(key, Several(elements))]));
    OneKey(key, One(s));
    OneKey(key, Several([Name(s)]));
    OneKey(key, Several(elements));
  }

  /** Something that is no string, dictionary or list where it should be one. */
  predicate Misplaced(e: Element) {
    match e
    case Name(_) => false
    case Dict(entries) => exists i | 0 <= i < |entries| :: MisplacedUnder(entries[i])
    case OtherElement => true
  }

  predicate MisplacedUnder(e: Entry)
    decreases e
  {
    e.value.OtherValue?
    || (e.value.Several? && exists i | 0 <= i < |e.value.elements| :: Misplaced(e.value.elements[i]))
  }

  lemma {:induction false} InvalidIff(schema: seq<Element>)
    ensures ShapesOf(schema).Invalid? <==> exists i :: 0 <= i < |schema| && Misplaced(schema[i])
    decreases schema
  {
    if schema != [] {
      var n := |schema| - 1;
      InvalidIff(schema[..n]);
      ElementInvalidIff(schema[n]);
      if i :| 0 <= i < |schema| && Misplaced(schema[i]) {
        assert i < n ==> Misplaced(schema[..n][i]);
      }
      if i :| 0 <= i < n && Misplaced(schema[..n][i]) {
        assert Misplaced(schema[i]);
      }
    }
  }

  lemma {:induction false} ElementInvalidIff(e: Element)
    ensures ElementShapes(e).Invalid? <==> Misplaced(e)
    decreases e
  {
    if e.Dict? {
      EntriesInvalidIff(e.entries);
    }
  }

  lemma {:induction false} EntriesInvalidIff(entries: seq<Entry>)
    ensures EntryShapes(entries).Invalid? <==> exists i :: 0 <= i < |entries| && MisplacedUnder(entries[i])
    decreases entries
  {
    if entries != [] {
      var n := |entries| - 1;
      EntriesInvalidIff(entries[..n]);
      if entries[n].value.Several? {
        InvalidIff(entries[n].value.elements);
      }
      if i :| 0 <= i < |entries| && MisplacedUnder(entries[i]) {
        assert i < n ==> MisplacedUnder(entries[..n][i]);
      }
      if i :| 0 <= i < n && MisplacedUnder(entries[..n][i]) {
        assert MisplacedUnder(entries[i]);
      }
    }
  }

  // ---------- Building ----------

  /** New trees on pairwise disjoint nodes, nobody asked yet. */
  ghost predicate Forest(ts: seq<SchemaTree>)
    reads NodesOf(ts)
  {
    && (forall i | 0 <= i < |ts| :: ts[i].WellFormed() && ts[i] in ts[i].nodes)
    && (forall i, j | 0 <= i < j < |ts| :: ts[i].nodes !! ts[j].nodes)
    && forall n <- NodesOf(ts) :: n.asked == NotSet
  }

  ghost function ShapeList(ts: seq<SchemaTree>): (r: seq<Schema>)
    ensures |r| == |ts|
  {
    seq(|ts|, i requires 0 <= i < |ts| => ts[i].shape)
  }

  lemma NodesAppend(a: seq<SchemaTree>, b: seq<SchemaTree>)
    ensures NodesOf(a + b) == NodesOf(a) + NodesOf(b)
  {
    forall n | n in NodesOf(a) + NodesOf(b) ensures n in NodesOf(a + b) {
      var t :| (t in a || t in b) && n in t.nodes;
      assert t in a + b;
    }
  }

  lemma NodesApart(a: seq<SchemaTree>, b: seq<SchemaTree>, i: nat, j: nat)
    requires i < |a| && j < |b| && NodesOf(a) !! NodesOf(b)
    ensures a[i].nodes !! b[j].nodes
  {
    assert a[i].nodes <= NodesOf(a) && b[j].nodes <= NodesOf(b);
  }

  lemma ForestAppend(a: seq<SchemaTree>, b: seq<SchemaTree>)
    requires Forest(a) && Forest(b) && NodesOf(a) !! NodesOf(b)
    ensures Forest(a + b) && NodesOf(a + b) == NodesOf(a) + NodesOf(b)
    ensures ShapeList(a + b) == ShapeList(a) + ShapeList(b)
  {
    NodesAppend(a, b);
    forall i, j | 0 <= i < j < |a + b| ensures (a + b)[i].nodes !! (a + b)[j].nodes {
      if i < |a| <= j {
        NodesApart(a, b, i, j - |a|);
      }
    }
  }

  /** The tree that a schema stands for, on new nodes; a type error exactly when some
      element or value is neither a string nor a dictionary or list. */
  method BuildTree(schema: seq<Element>, name: string) returns (r: Built<SchemaTree>)
    ensures r.TypeError? <==> ShapesOf(schema).Invalid?
    ensures r.TypeError? <==> exists i :: 0 <= i < |schema| && Misplaced(schema[i])
    ensures r.Built? ==> r.value.WellFormed() && r.value.shape == Schema(name, ShapesOf(schema).list)
    ensures r.Built? ==> fresh(r.value.nodes) && Forest(r.value.children)
    decreases schema, 1
  {
    InvalidIff(schema);
    var children := BuildAll(schema);
    if children.TypeError? {
      return TypeError;
    }
    var tree := new SchemaTree(name, children.value);
    assert tree.shape.children == ShapeList(children.value);
    r := Built(tree);
  }

  method BuildAll(schema: seq<Element>) returns (r: Built<seq<SchemaTree>>)
    ensures r.TypeError? <==> ShapesOf(schema).Invalid?
    ensures r.Built? ==> Forest(r.value) && ShapeList(r.value) == ShapesOf(schema).list && fresh(NodesOf(r.value))
    decreases schema, 0
  {
    var children: seq<SchemaTree> := [];
    for i := 0 to |schema|
      invariant ShapesOf(schema[..i]) == Shapes(ShapeList(children))
      invariant Forest(children) && fresh(NodesOf(children))
    {
      assert schema[..i + 1][..i] == schema[..i];
      var more := BuildElement(schema[i]);
      if more.TypeError? {
        InvalidStays(schema, i + 1);
        return TypeError;
      }
      ForestAppend(children, more.value);
      children := children + more.value;
    }
    assert schema[..|schema|] == schema;
    r := Built(children);
  }

  method BuildElement(e: Element) returns (r: Built<seq<SchemaTree>>)
    ensures r.TypeError? <==> ElementShapes(e).Invalid?
    ensures r.Built? ==> Forest(r.value) && ShapeList(r.value) == ElementShapes(e).list && fresh(NodesOf(r.value))
    decreases e
  {
    match e
    case Name(s) =>
      var leaf := Leaf(s);
      r := Built([leaf]);
    case Dict(entries) =>
      r := BuildEntries(entries);
    case OtherElement =>
      r := TypeError;
  }

  method Leaf(s: string) returns (leaf: SchemaTree)
    ensures Forest([leaf]) && ShapeList([leaf]) == [Schema(s, [])] && fresh(NodesOf([leaf]))
  {
    leaf := new SchemaTree(s, []);
    assert leaf.shape.children == [];
    assert leaf.nodes == {leaf};
  }

  method BuildEntries(entries: seq<Entry>) returns (r: Built<seq<SchemaTree>>)
    ensures r.TypeError? <==> EntryShapes(entries).Invalid?
    ensures r.Built? ==> Forest(r.value) && ShapeList(r.value) == EntryShapes(entries).list && fresh(NodesOf(r.value))
    decreases entries
  {
    var children: seq<SchemaTree> := [];
    for i := 0 to |entries|
      invariant EntryShapes(entries[..i]) == Shapes(ShapeList(children))
      invariant Forest(children) && fresh(NodesOf(children))
    {
      assert entries[..i + 1][..i] == entries[..i];
      var child := BuildEntry(entries[i]);
      if child.TypeError? {
        InvalidEntryStays(entries, i + 1);
        return TypeError;
      }
      ForestAppend(children, child.value);
      children := children + child.value;
    }
    assert entries[..|entries|] == entries;
    r := Built(children);
  }

  /** One key with what hangs below it, as a list of one tree. */
  method BuildEntry(e: Entry) returns (r: Built<seq<SchemaTree>>)
    ensures r.TypeError? <==> NestedShapes(e.value).Invalid?
    ensures r.Built? ==> Forest(r.value) && fresh(NodesOf(r.value))
    ensures r.Built? ==> ShapeList(r.value) == [Schema(e.key, NestedShapes(e.value).list)]
    decreases e
  {
    var below: Built<seq<SchemaTree>>;
    match e.value {
      case One(s) =>
        var leaf := Leaf(s);
        below := Built([leaf]);
      case Several(elements) =>
        below := BuildAll(elements);
      case OtherValue =>
        below := TypeError;
    }
    if below.TypeError? {
      return TypeError;
    }
    var child := new SchemaTree(e.key, below.value);
    assert child.shape.children == ShapeList(below.value);
    assert NodesOf([child]) == child.nodes;
    r := Built([child]);
  }

  lemma InvalidStays(schema: seq<Element>, i: nat)
    requires i <= |schema| && ShapesOf(schema[..i]).Invalid?
    ensures ShapesOf(schema).Invalid?
    decreases |schema| - i
  {
    if i < |schema| {
      assert schema[..i + 1][..i] == schema[..i];
      InvalidStays(schema, i + 1);
    } else {
      assert schema[..i] == schema;
    }
  }

  lemma InvalidEntryStays(entries: seq<Entry>, i: nat)
    requires i <= |entries| && EntryShapes(entries[..i]).Invalid?
    ensures EntryShapes(entries).Invalid?
    decreases |entries| - i
  {
    if i < |entries| {
      InvalidEntryStep(entries, i);
      InvalidEntryStays(entries, i + 1);
    } else {
      assert entries[..i] == entries;
    }
  }

  lemma InvalidEntryStep(entries: seq<Entry>, i: nat)
    requires i < |entries| && EntryShapes(entries[..i]).Invalid?
    ensures EntryShapes(entries[..i + 1]).Invalid?
  {
    var longer := entries[..i + 1];
    assert longer[..|longer| - 1] == entries[..i];
  }
}
