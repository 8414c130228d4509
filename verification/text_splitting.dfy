/** Cutting texts for the model, turning token hits into results, and joining the
    results of the pieces with offsets of the whole text. */
module TextSplitting {
  import opened PythonSlices

  /** A result: found in the text, or one of the options named in the prompt. */
  datatype Hit =
    | InText(text: string, start: int, end: int, probability: real)
    | InPrompt(text: string, probability: real)

  datatype Id = Id(start: int, end: int, probability: real)

  datatype Example = Example(text: string, prompt: string)

  function Join(parts: seq<string>): string {
    if parts == [] then "" else Join(parts[..|parts| - 1]) + parts[|parts| - 1]
  }

  /** Join concatenates, and nothing else. */
  lemma {:induction false} JoinAdds(a: seq<string>, b: seq<string>, s: string)
    ensures Join([]) == "" && Join([s]) == s && Join(a + b) == Join(a) + Join(b)
  {
    assert [s][..0] == [];
    if b == [] {
      assert a + b == a;
    } else {
      var n := |b| - 1;
      JoinAdds(a, b[..n], s);
      assert (a + b)[..|a + b| - 1] == a + b[..n];
    }
  }

  /** The sum of the first i numbers. */
  function Total(ns: seq<nat>, i: nat): nat
    requires i <= |ns|
  {
    if i == 0 then 0 else Total(ns, i - 1) + ns[i - 1]
  }

  function CeilDiv(a: nat, b: int): nat
    requires 1 <= b
  {
    (a + b - 1) / b
  }

  function Pieces(len: nat, max: int): nat
    requires 1 <= max
  {
    if len <= max then 1 else CeilDiv(len, max)
  }

  function Range(from: nat, n: nat): (r: seq<nat>)
    ensures |r| == n
  {
    seq(n, i requires 0 <= i => from + i)
  }

  /** First piece number of text k. */
  function Base(texts: seq<string>, max: int, k: nat): nat
    requires 1 <= max && k <= |texts|
  {
    if k == 0 then 0 else Base(texts, max, k - 1) + Pieces(|texts[k - 1]|, max)
  }

  predicate SplitOk(texts: seq<string>, max: int, short: seq<string>, mapping: seq<seq<nat>>, n: nat)
    requires 1 <= max && n <= |texts|
  {
    && |mapping| == n && |short| == Base(texts, max, n)
    && (forall i | 0 <= i < |short| :: |short[i]| <= max)
    && forall k | 0 <= k < n :: TextOk(texts, max, short, mapping, k)
  }

  /** The pieces of text k are consecutive and concatenate to it. */
  predicate TextOk(texts: seq<string>, max: int, short: seq<string>, mapping: seq<seq<nat>>, k: nat)
    requires 1 <= max && k < |texts|
  {
    && k < |mapping|
    && mapping[k] == Range(Base(texts, max, k), Pieces(|texts[k]|, max))
    && Base(texts, max, k + 1) <= |short|
    && Join(short[Base(texts, max, k)..Base(texts, max, k + 1)]) == texts[k]
  }

  lemma CeilSteps(len: nat, max: int, n: nat)
    requires 1 <= max
    ensures (n + 1) * max == n * max + max
    ensures n * max < len ==> n < CeilDiv(len, max)
    ensures len <= n * max ==> CeilDiv(len, max) <= n
  {
    var q := CeilDiv(len, max);
    assert q * max <= len + max - 1 < q * max + max;
    if q <= n {
      assert q * max <= n * max;
    } else {
      assert (n + 1) * max <= q * max;
    }
  }

  /** Cut one long text into slices of `max` characters. */
  method Slices(sen: string, max: int) returns (parts: seq<string>)
    requires 1 <= max < |sen|
    ensures |parts| == CeilDiv(|sen|, max) && Join(parts) == sen
    ensures (|parts| - 1) * max < |sen| <= |parts| * max
    ensures forall i | 0 <= i < |parts| :: |parts[i]| <= max && (i < |parts| - 1 ==> |parts[i]| == max)
  {
    parts := [];
    var i := 0;
    while i < |sen|
      invariant 0 <= i && i == |parts| * max && (parts == [] || (|parts| - 1) * max < |sen|)
      invariant forall j | 0 <= j < |parts| :: |parts[j]| == max || (j == |parts| - 1 && |sen| <= i)
      invariant Join(parts) == sen[..Clip(i, |sen|)]
      invariant forall j | 0 <= j < |parts| :: |parts[j]| <= max
      invariant |parts| <= CeilDiv(|sen|, max)
    {
      CeilSteps(|sen|, max, |parts|);
      var part := PySlice(sen, i, i + max);
      assert (parts + [part])[..|parts|] == parts;
      assert sen[..Clip(i + max, |sen|)] == sen[..i] + part;
      parts := parts + [part];
      i := i + max;
    }
    CeilSteps(|sen|, max, |parts|);
  }

  /** Text k is the pieces numbered by `vs`, each of `max` characters but for the last. */
  predicate CutUp(text: string, max: int, short: seq<string>, vs: seq<nat>) {
    && 1 <= |vs| && (forall i | 0 <= i < |vs| :: vs[i] == vs[0] + i) && vs[0] + |vs| <= |short|
    && Join(short[vs[0]..vs[0] + |vs|]) == text
    && (forall i | 0 <= i < |vs| :: |short[vs[i]]| <= max && (i < |vs| - 1 ==> |short[vs[i]]| == max))
    && (|text| > 0 ==> (|vs| - 1) * max < |text|) && (|text| == 0 ==> |vs| == 1)
  }

  /** The texts are cut up one after the other, and there is nothing else. */
  predicate AllCut(texts: seq<string>, max: int, short: seq<string>, mapping: seq<seq<nat>>) {
    && |mapping| == |texts| && Chained(mapping, |short|)
    && forall k | 0 <= k < |texts| :: CutUp(texts[k], max, short, mapping[k])
  }

  /** The numbers of one text follow those of the text before, from 0 up to n. */
  predicate Chained(mapping: seq<seq<nat>>, n: nat) {
    && (forall k | 0 <= k < |mapping| :: mapping[k] != [])
    && (if mapping == [] then n == 0 else mapping[0][0] == 0)
    && forall k | 0 <= k < |mapping| ::
         mapping[k][0] + |mapping[k]| == if k < |mapping| - 1 then mapping[k + 1][0] else n
  }

  lemma ChainedStep(mapping: seq<seq<nat>>, n: nat, ids: seq<nat>)
    requires Chained(mapping, n) && ids != [] && ids[0] == n
    ensures Chained(mapping + [ids], n + |ids|)
  {
    var longer := mapping + [ids];
    forall k | 0 <= k < |longer|
      ensures longer[k][0] + |longer[k]| == if k < |longer| - 1 then longer[k + 1][0] else n + |ids|
    {
      if k < |mapping| {
        assert mapping[k][0] + |mapping[k]| == if k < |mapping| - 1 then mapping[k + 1][0] else n;
        assert longer[k] == mapping[k] && longer[k + 1] == if k < |mapping| - 1 then mapping[k + 1] else ids;
      } else {
        assert longer[k] == ids && k == |longer| - 1;
      }
    }
  }

  method AutoSplitter(texts: seq<string>, max: int) returns (short: seq<string>, mapping: seq<seq<nat>>)
    requires 1 <= max
    ensures SplitOk(texts, max, short, mapping, |texts|)
    ensures AllCut(texts, max, short, mapping)
  {
    short, mapping := [], [];
    var count := 0;
    for k := 0 to |texts|
      invariant count == |short| && SplitOk(texts, max, short, mapping, k)
      invariant AllCut(texts[..k], max, short, mapping)
    {
      var sen := texts[k];
      var parts, ids;
      if |sen| <= max {
        parts := [sen];
        ids := [count];
        count := count + 1;
        OnePart(sen, max);
      } else {
        parts := Slices(sen, max);
        var first := count;
        count := count + CeilDiv(|sen|, max);
        ids := seq(count - first, i requires 0 <= i => first + i);
      }
      SplitStep(texts, max, short, mapping, k, parts, ids);
      AllCutStep(texts[..k], max, short, mapping, sen, parts, ids);
      assert texts[..k + 1] == texts[..k] + [sen];
      short := short + parts;
      mapping := mapping + [ids];
    }
    assert texts[..|texts|] == texts;
  }

  /** A text is cut into these parts. */
  predicate Parts(text: string, max: int, parts: seq<string>) {
    && parts != [] && Join(parts) == text
    && (forall i | 0 <= i < |parts| :: |parts[i]| <= max && (i < |parts| - 1 ==> |parts[i]| == max))
    && (|text| > 0 ==> (|parts| - 1) * max < |text|) && (|text| == 0 ==> |parts| == 1)
  }

  lemma OnePart(text: string, max: int)
    requires |text| <= max
    ensures Parts(text, max, [text])
  {
    assert [text][..0] == [];
  }

  lemma AllCutStep(texts: seq<string>, max: int, short: seq<string>, mapping: seq<seq<nat>>, text: string,
                   parts: seq<string>, ids: seq<nat>)
    requires AllCut(texts, max, short, mapping) && Parts(text, max, parts) && |ids| == |parts|
    requires forall i | 0 <= i < |ids| :: ids[i] == |short| + i
    ensures AllCut(texts + [text], max, short + parts, mapping + [ids])
  {
    ChainedStep(mapping, |short|, ids);
    forall k | 0 <= k <= |texts| ensures CutUp((texts + [text])[k], max, short + parts, (mapping + [ids])[k]) {
      if k < |texts| {
        CutStays(texts[k], max, short, parts, mapping[k]);
      } else {
        NewlyCut(text, max, short, parts, ids);
      }
    }
  }

  lemma CutStays(text: string, max: int, short: seq<string>, parts: seq<string>, vs: seq<nat>)
    requires CutUp(text, max, short, vs)
    ensures CutUp(text, max, short + parts, vs)
  {
    assert (short + parts)[vs[0]..vs[0] + |vs|] == short[vs[0]..vs[0] + |vs|];
  }

  lemma NewlyCut(text: string, max: int, short: seq<string>, parts: seq<string>, ids: seq<nat>)
    requires Parts(text, max, parts) && |ids| == |parts|
    requires forall i | 0 <= i < |ids| :: ids[i] == |short| + i
    ensures CutUp(text, max, short + parts, ids)
  {
    assert (short + parts)[|short|..|short| + |parts|] == parts;
  }

  /** The pieces of one more text, numbered from the next free number on. */
  lemma SplitStep(texts: seq<string>, max: int, short: seq<string>, mapping: seq<seq<nat>>, k: nat,
                  parts: seq<string>, ids: seq<nat>)
    requires 1 <= max && k < |texts| && SplitOk(texts, max, short, mapping, k)
    requires |parts| == Pieces(|texts[k]|, max) && Join(parts) == texts[k] && ids == Range(|short|, |parts|)
    requires forall i | 0 <= i < |parts| :: |parts[i]| <= max
    ensures SplitOk(texts, max, short + parts, mapping + [ids], k + 1)
  {
    forall j | 0 <= j <= k ensures TextOk(texts, max, short + parts, mapping + [ids], j) {
      if j < k {
        TextStays(texts, max, short, mapping, k, parts, ids, j);
      } else {
        TextAdded(texts, max, short, mapping, k, parts, ids);
      }
    }
  }

  lemma TextAdded(texts: seq<string>, max: int, short: seq<string>, mapping: seq<seq<nat>>, k: nat,
                  parts: seq<string>, ids: seq<nat>)
    requires 1 <= max && k < |texts| && |mapping| == k && |short| == Base(texts, max, k)
    requires |parts| == Pieces(|texts[k]|, max) && Join(parts) == texts[k] && ids == Range(|short|, |parts|)
    ensures TextOk(texts, max, short + parts, mapping + [ids], k)
  {
    assert (short + parts)[|short|..|short| + |parts|] == parts;
    assert (mapping + [ids])[k] == ids;
  }

  lemma TextStays(texts: seq<string>, max: int, short: seq<string>, mapping: seq<seq<nat>>, k: nat,
                  parts: seq<string>, ids: seq<nat>, j: nat)
    requires 1 <= max && j < k < |texts| && |mapping| == k && |short| == Base(texts, max, k)
    requires TextOk(texts, max, short, mapping, j)
    ensures TextOk(texts, max, short + parts, mapping + [ids], j)
  {
    BaseGrows(texts, max, j + 1, k);
    assert (short + parts)[Base(texts, max, j)..Base(texts, max, j + 1)]
        == short[Base(texts, max, j)..Base(texts, max, j + 1)];
  }

  lemma BaseGrows(texts: seq<string>, max: int, j: nat, k: nat)
    requires 1 <= max && j <= k <= |texts|
    ensures Base(texts, max, j) <= Base(texts, max, k)
  {
    if j < k {
      BaseGrows(texts, max, j, k - 1);
    }
  }

  // ---------- Hits of one piece ----------

  /** What one token hit becomes; a hit that runs from the prompt into the text is dropped. */
  function Convert(ex: Example, id: Id): seq<Hit> {
    if id.start < 0 && id.end >= 0 then []
    else if id.end < 0 then
      var d := |ex.prompt| + 1;
      [InPrompt(PySlice(ex.prompt, id.start + d, id.end + d), id.probability)]
    else [InText(PySlice(ex.text, id.start, id.end), id.start, id.end, id.probability)]
  }

  function ConvertAll(ex: Example, ids: seq<Id>): seq<Hit> {
    if ids == [] then [] else ConvertAll(ex, ids[..|ids| - 1]) + Convert(ex, ids[|ids| - 1])
  }

  /** The hit runs from the prompt into the text. */
  predicate Across(id: Id) { id.start < 0 <= id.end }

  function Kept(ids: seq<Id>): nat {
    if ids == [] then 0 else Kept(ids[..|ids| - 1]) + if Across(ids[|ids| - 1]) then 0 else 1
  }

  /** Hit i, unless it runs across, becomes this result. */
  predicate Becomes(ex: Example, id: Id, h: Hit) {
    if id.end < 0 then
      h == InPrompt(PySlice(ex.prompt, id.start + |ex.prompt| + 1, id.end + |ex.prompt| + 1), id.probability)
    else h == InText(PySlice(ex.text, id.start, id.end), id.start, id.end, id.probability)
  }

  /** No hit but those that run across is lost, and the order is kept. */
  lemma {:induction false} ConvertAllAt(ex: Example, ids: seq<Id>, i: nat)
    requires i < |ids|
    ensures |ConvertAll(ex, ids)| == Kept(ids)
    ensures !Across(ids[i]) ==> Kept(ids[..i]) < Kept(ids) && Becomes(ex, ids[i], ConvertAll(ex, ids)[Kept(ids[..i])])
  {
    var n := |ids| - 1;
    ConvertAllLength(ex, ids);
    if i < n {
      ConvertAllAt(ex, ids[..n], i);
      assert ids[..n][..i] == ids[..i];
    } else {
      ConvertAllLength(ex, ids[..n]);
    }
  }

  lemma {:induction false} ConvertAllLength(ex: Example, ids: seq<Id>)
    ensures |ConvertAll(ex, ids)| == Kept(ids)
  {
    if ids != [] {
      ConvertAllLength(ex, ids[..|ids| - 1]);
    }
  }

  method ConvertIds(examples: seq<Example>, ids: seq<seq<Id>>) returns (results: seq<seq<Hit>>)
    requires |ids| == |examples|
    ensures |results| == |examples|
    ensures forall x | 0 <= x < |examples| :: results[x] == ConvertAll(examples[x], ids[x])
    ensures forall x | 0 <= x < |examples| :: AllConverted(examples[x], ids[x], results[x])
  {
    results := ConvertEach(examples, ids);
    forall x | 0 <= x < |examples| ensures AllConverted(examples[x], ids[x], results[x]) {
      ConvertAllLength(examples[x], ids[x]);
      forall i | 0 <= i < |ids[x]| && !Across(ids[x][i])
        ensures Kept(ids[x][..i]) < |results[x]| && Becomes(examples[x], ids[x][i], results[x][Kept(ids[x][..i])])
      {
        ConvertAllAt(examples[x], ids[x], i);
      }
    }
  }

  predicate AllConverted(ex: Example, ids: seq<Id>, hs: seq<Hit>) {
    && |hs| == Kept(ids)
    && forall i | 0 <= i < |ids| && !Across(ids[i]) ::
         Kept(ids[..i]) < |hs| && Becomes(ex, ids[i], hs[Kept(ids[..i])])
  }

  method ConvertEach(examples: seq<Example>, ids: seq<seq<Id>>) returns (results: seq<seq<Hit>>)
    requires |ids| == |examples|
    ensures |results| == |examples|
    ensures forall x | 0 <= x < |examples| :: results[x] == ConvertAll(examples[x], ids[x])
  {
    results := [];
    for x := 0 to |examples|
      invariant |results| == x
      invariant forall y | 0 <= y < x :: results[y] == ConvertAll(examples[y], ids[y])
    {
      var list := ConvertPiece(examples[x], ids[x]);
      results := results + [list];
    }
  }

  /** The token hits of one piece. */
  method ConvertPiece(ex: Example, ids: seq<Id>) returns (list: seq<Hit>)
    ensures list == ConvertAll(ex, ids)
  {
    list := [];
    for i := 0 to |ids|
      invariant list == ConvertAll(ex, ids[..i])
    {
      var start, end := ids[i].start, ids[i].end;
      assert ids[..i + 1][..i] == ids[..i];
      if start < 0 && end >= 0 {
        continue;
      }
      if end < 0 {
        start := start + |ex.prompt| + 1;
        end := end + |ex.prompt| + 1;
        list := list + [InPrompt(PySlice(ex.prompt, start, end), ids[i].probability)];
      } else {
        list := list + [InText(PySlice(ex.text, start, end), start, end, ids[i].probability)];
      }
    }
    assert ids[..|ids|] == ids;
  }

  /** A text hit is a slice of its piece, with an end inside the piece if the token was. */
  predicate HitOf(piece: string, h: Hit) {
    h.InText? ==> 0 <= h.start && 0 <= h.end <= |piece| && h.text == PySlice(piece, h.start, h.end)
  }

  predicate HitsOf(piece: string, hs: seq<Hit>) {
    forall h <- hs :: HitOf(piece, h)
  }

  lemma {:induction false} ConvertedHits(ex: Example, ids: seq<Id>)
    requires forall i | 0 <= i < |ids| :: ids[i].end <= |ex.text|
    ensures HitsOf(ex.text, ConvertAll(ex, ids))
  {
    if ids != [] {
      ConvertedHits(ex, ids[..|ids| - 1]);
      assert ids[|ids| - 1].end <= |ex.text|;
    }
  }

  // ---------- Joining ----------

  function Moved(h: Hit, d: int): Hit {
    if h.InText? then InText(h.text, h.start + d, h.end + d, h.probability) else h
  }

  function MovedAll(hs: seq<Hit>, d: int): (r: seq<Hit>)
    ensures |r| == |hs|
  {
    seq(|hs|, i requires 0 <= i < |hs| => Moved(hs[i], d))
  }

  /** Characters in the first i pieces named by `vs`. */
  function OffsetAt(short: seq<string>, vs: seq<nat>, i: nat): nat
    requires i <= |vs| && forall j | 0 <= j < |vs| :: vs[j] < |short|
  {
    if i == 0 then 0 else OffsetAt(short, vs, i - 1) + |short[vs[i - 1]]|
  }

  /** All hits of the first i pieces, each moved by what stands before its piece. */
  function JoinedHits(results: seq<seq<Hit>>, short: seq<string>, vs: seq<nat>, i: nat): seq<Hit>
    requires i <= |vs| && |results| == |short| && forall j | 0 <= j < |vs| :: vs[j] < |short|
  {
    if i == 0 then []
    else JoinedHits(results, short, vs, i - 1) + MovedAll(results[vs[i - 1]], OffsetAt(short, vs, i - 1))
  }

  function HitCounts(results: seq<seq<Hit>>, vs: seq<nat>): seq<nat>
    requires forall j | 0 <= j < |vs| :: vs[j] < |results|
  {
    seq(|vs|, i requires 0 <= i < |vs| => |results[vs[i]]|)
  }

  function Lengths(short: seq<string>, vs: seq<nat>): seq<nat>
    requires forall j | 0 <= j < |vs| :: vs[j] < |short|
  {
    seq(|vs|, i requires 0 <= i < |vs| => |short[vs[i]]|)
  }

  /** Hit x of piece i stands behind all hits of the pieces before, moved by their length. */
  predicate InPlace(results: seq<seq<Hit>>, short: seq<string>, vs: seq<nat>, joined: seq<Hit>, i: nat, x: nat)
    requires |results| == |short| && (forall j | 0 <= j < |vs| :: vs[j] < |short|)
    requires i < |vs| && x < |results[vs[i]]|
  {
    var at, d, h := Total(HitCounts(results, vs), i) + x, Total(Lengths(short, vs), i), results[vs[i]][x];
    at < |joined| && joined[at] == if h.InText? then InText(h.text, h.start + d, h.end + d, h.probability) else h
  }

  /** Nothing is lost or added, and the order is kept. */
  predicate AllInPlace(results: seq<seq<Hit>>, short: seq<string>, vs: seq<nat>, joined: seq<Hit>)
    requires |results| == |short| && forall j | 0 <= j < |vs| :: vs[j] < |short|
  {
    && |joined| == Total(HitCounts(results, vs), |vs|)
    && forall i: nat, x: nat | i < |vs| && x < |results[vs[i]]| :: InPlace(results, short, vs, joined, i, x)
  }

  lemma {:induction false} JoinedInPlace(results: seq<seq<Hit>>, short: seq<string>, vs: seq<nat>, n: nat)
    requires n <= |vs| && |results| == |short| && forall j | 0 <= j < |vs| :: vs[j] < |short|
    ensures |JoinedHits(results, short, vs, n)| == Total(HitCounts(results, vs), n)
    ensures OffsetAt(short, vs, n) == Total(Lengths(short, vs), n)
    ensures forall i: nat, x: nat | i < n && x < |results[vs[i]]| ::
              InPlace(results, short, vs, JoinedHits(results, short, vs, n), i, x)
  {
    if n > 0 {
      JoinedInPlace(results, short, vs, n - 1);
      forall i: nat, x: nat | i < n && x < |results[vs[i]]|
        ensures InPlace(results, short, vs, JoinedHits(results, short, vs, n), i, x)
      {
        if i < n - 1 {
          assert InPlace(results, short, vs, JoinedHits(results, short, vs, n - 1), i, x);
        }
      }
    }
  }

  /** The first piece that has any hit decides what kind of task it was. */
  function IsClassification(results: seq<seq<Hit>>): bool {
    results != [] && (if results[0] == [] then IsClassification(results[1..]) else results[0][0].InPrompt?)
  }

  method AutoJoiner(results: seq<seq<Hit>>, short: seq<string>, mapping: seq<seq<nat>>) returns (joined: seq<seq<Hit>>)
    requires |results| == |short|
    requires forall k, i | 0 <= k < |mapping| && 0 <= i < |mapping[k]| :: mapping[k][i] < |short|
    requires forall k, i | 0 <= k < |mapping| && 0 <= i < |mapping[k]| && mapping[k][i] == 0 :: i == 0
    ensures |joined| == |mapping|
    ensures !IsClassification(results) ==> forall k | 0 <= k < |mapping| ::
              joined[k] == JoinedHits(results, short, mapping[k], |mapping[k]|)
    ensures !(exists i :: 0 <= i < |results| && DecidesForOptions(results, i)) ==>
              forall k | 0 <= k < |mapping| :: AllInPlace(results, short, mapping[k], joined[k])
    ensures (exists i :: 0 <= i < |results| && DecidesForOptions(results, i)) ==>
              forall k | 0 <= k < |mapping| :: Elected(results, mapping[k], joined[k])
  {
    ClassificationIff(results);
    joined := JoinEach(results, short, mapping);
    if !IsClassification(results) {
      forall k | 0 <= k < |mapping| ensures AllInPlace(results, short, mapping[k], joined[k]) {
        JoinedInPlace(results, short, mapping[k], |mapping[k]|);
      }
    }
  }

  /** Piece i is the first with a hit, and that is an option of the prompt. */
  predicate DecidesForOptions(results: seq<seq<Hit>>, i: nat)
    requires i < |results|
  {
    results[i] != [] && results[i][0].InPrompt? && forall j | 0 <= j < i :: results[j] == []
  }

  lemma {:induction false} ClassificationIff(results: seq<seq<Hit>>)
    ensures IsClassification(results) <==> exists i :: 0 <= i < |results| && DecidesForOptions(results, i)
  {
    if results != [] {
      ClassificationIff(results[1..]);
      if results[0] == [] {
        if i :| 0 <= i < |results| && DecidesForOptions(results, i) {
          assert DecidesForOptions(results[1..], i - 1);
        }
        if i :| 0 <= i < |results[1..]| && DecidesForOptions(results[1..], i) {
          assert DecidesForOptions(results, i + 1);
        }
      } else if results[0][0].InPrompt? {
        assert DecidesForOptions(results, 0);
      }
    }
  }

  method JoinEach(results: seq<seq<Hit>>, short: seq<string>, mapping: seq<seq<nat>>) returns (joined: seq<seq<Hit>>)
    requires |results| == |short|
    requires forall k, i | 0 <= k < |mapping| && 0 <= i < |mapping[k]| :: mapping[k][i] < |short|
    requires forall k, i | 0 <= k < |mapping| && 0 <= i < |mapping[k]| && mapping[k][i] == 0 :: i == 0
    ensures |joined| == |mapping|
    ensures !IsClassification(results) ==> forall k | 0 <= k < |mapping| ::
              joined[k] == JoinedHits(results, short, mapping[k], |mapping[k]|)
    ensures IsClassification(results) ==> forall k | 0 <= k < |mapping| :: Elected(results, mapping[k], joined[k])
  {
    var isCls := false;
    for i := 0 to |results|
      invariant !isCls && IsClassification(results) == IsClassification(results[i..])
    {
      if results[i] != [] {
        isCls := results[i][0].InPrompt?;
        break;
      }
    }
    assert isCls == IsClassification(results);
    joined := [];
    for k := 0 to |mapping|
      invariant |joined| == k
      invariant !isCls ==> forall x | 0 <= x < k ::
                  joined[x] == JoinedHits(results, short, mapping[x], |mapping[x]|)
      invariant isCls ==> forall x | 0 <= x < k :: Elected(results, mapping[x], joined[x])
    {
      var single;
      if isCls {
        single := Vote(results, mapping[k]);
      } else {
        single := JoinPieces(results, short, mapping[k]);
      }
      joined := joined + [single];
    }
  }

  method JoinPieces(results: seq<seq<Hit>>, short: seq<string>, vs: seq<nat>) returns (single: seq<Hit>)
    requires |results| == |short| && forall i | 0 <= i < |vs| :: vs[i] < |short|
    requires forall i | 0 <= i < |vs| && vs[i] == 0 :: i == 0
    ensures single == JoinedHits(results, short, vs, |vs|) && AllInPlace(results, short, vs, single)
  {
    JoinedInPlace(results, short, vs, |vs|);
    single := [];
    var offset := 0;
    for x := 0 to |vs|
      invariant offset == OffsetAt(short, vs, x) && single == JoinedHits(results, short, vs, x)
    {
      var v := vs[x];
      if v == 0 {
        single := results[v];
        assert single == MovedAll(results[v], 0);
      } else {
        var moved := results[v];
        for i := 0 to |moved|
          invariant |moved| == |results[v]|
          invariant forall j | 0 <= j < i :: moved[j] == Moved(results[v][j], offset)
          invariant forall j | i <= j < |moved| :: moved[j] == results[v][j]
        {
          if moved[i].InText? {
            moved := moved[i := moved[i].(start := moved[i].start + offset, end := moved[i].end + offset)];
          }
        }
        single := single + moved;
      }
      offset := offset + |short[v]|;
    }
  }

  // ---------- Classification: the pieces vote ----------

  function Votes(results: seq<seq<Hit>>, vs: seq<nat>, text: string): nat
    requires forall i | 0 <= i < |vs| :: vs[i] < |results|
  {
    if vs == [] then 0 else
    var r := results[vs[|vs| - 1]];
    Votes(results, vs[..|vs| - 1], text) + if r != [] && r[0].text == text then 1 else 0
  }

  function Weight(results: seq<seq<Hit>>, vs: seq<nat>, text: string): real
    requires forall i | 0 <= i < |vs| :: vs[i] < |results|
  {
    if vs == [] then 0.0 else
    var r := results[vs[|vs| - 1]];
    Weight(results, vs[..|vs| - 1], text) + if r != [] && r[0].text == text then r[0].probability else 0.0
  }

  /** The first hit of piece v names this option. */
  predicate VotesFor(results: seq<seq<Hit>>, v: nat, text: string) {
    v < |results| && results[v] != [] && results[v][0].text == text
  }

  function Voters(results: seq<seq<Hit>>, vs: seq<nat>, n: nat, text: string): set<nat>
    requires n <= |vs|
  {
    set i | 0 <= i < n && VotesFor(results, vs[i], text)
  }

  /** Votes counts the pieces whose first hit names the option. */
  lemma {:induction false} VotesAreCounted(results: seq<seq<Hit>>, vs: seq<nat>, n: nat, text: string)
    requires n <= |vs| && forall i | 0 <= i < |vs| :: vs[i] < |results|
    ensures Votes(results, vs[..n], text) == |Voters(results, vs, n, text)|
  {
    if n > 0 {
      VotesAreCounted(results, vs, n - 1, text);
      assert vs[..n][..n - 1] == vs[..n - 1];
      assert Voters(results, vs, n, text)
          == Voters(results, vs, n - 1, text) + if VotesFor(results, vs[n - 1], text) then {n - 1} else {};
    }
  }

  /** Weight adds up the probabilities of those hits. */
  lemma {:induction false} WeightsAdd(results: seq<seq<Hit>>, a: seq<nat>, b: seq<nat>, v: nat, text: string)
    requires (forall i | 0 <= i < |a| :: a[i] < |results|) && forall i | 0 <= i < |b| :: b[i] < |results|
    requires v < |results|
    ensures Weight(results, a + b, text) == Weight(results, a, text) + Weight(results, b, text)
    ensures Weight(results, [v], text)
         == if results[v] != [] && results[v][0].text == text then results[v][0].probability else 0.0
  {
    assert [v][..0] == [];
    if b == [] {
      assert a + b == a;
    } else {
      var n := |b| - 1;
      WeightsAdd(results, a, b[..n], v, text);
      assert (a + b)[..|a + b| - 1] == a + b[..n];
    }
  }

  predicate AtLeast(n: nat, p: real, m: nat, q: real) { n > m || (n == m && p >= q) }

  /** The option with most votes, ties broken by total probability, and its mean. */
  ghost predicate Elected(results: seq<seq<Hit>>, vs: seq<nat>, r: seq<Hit>)
    requires forall i | 0 <= i < |vs| :: vs[i] < |results|
  {
    if forall i | 0 <= i < |vs| :: results[vs[i]] == [] then r == [] else
    && |r| == 1 && r[0].InPrompt?
    && var t := r[0].text; var n, w := Votes(results, vs, t), Weight(results, vs, t);
    && n > 0 && r[0].probability == w / (n as real)
    && forall u :: Votes(results, vs, u) > 0 ==>
         && AtLeast(n, w, Votes(results, vs, u), Weight(results, vs, u))
         && (u != t && Votes(results, vs, u) == n && Weight(results, vs, u) == w ==> Earlier(results, vs, t, u))
  }

  /** Some piece votes for t before any votes for u. */
  ghost predicate Earlier(results: seq<seq<Hit>>, vs: seq<nat>, t: string, u: string) {
    exists i :: 0 <= i < |vs| && VotesFor(results, vs[i], t) && forall j | 0 <= j <= i :: !VotesFor(results, vs[j], u)
  }

  lemma EarlierStays(results: seq<seq<Hit>>, vs: seq<nat>, v: nat, t: string, u: string)
    requires Earlier(results, vs, t, u)
    ensures Earlier(results, vs + [v], t, u)
  {
    var i :| 0 <= i < |vs| && VotesFor(results, vs[i], t) && forall j | 0 <= j <= i :: !VotesFor(results, vs[j], u);
    assert VotesFor(results, (vs + [v])[i], t);
  }

  /** The table lists options in the order in which they were first voted for. */
  ghost predicate InOrderSeen(results: seq<seq<Hit>>, vs: seq<nat>, options: seq<Option>) {
    forall i, j | 0 <= i < j < |options| :: Earlier(results, vs, options[i].text, options[j].text)
  }

  lemma {:induction false} VotedFor(results: seq<seq<Hit>>, vs: seq<nat>, t: string)
    requires forall i | 0 <= i < |vs| :: vs[i] < |results|
    ensures Votes(results, vs, t) > 0 <==> exists i :: 0 <= i < |vs| && VotesFor(results, vs[i], t)
  {
    if vs != [] {
      var n := |vs| - 1;
      VotedFor(results, vs[..n], t);
      if i :| 0 <= i < |vs| && VotesFor(results, vs[i], t) {
        assert i < n ==> VotesFor(results, vs[..n][i], t);
      }
      if i :| 0 <= i < n && VotesFor(results, vs[..n][i], t) {
        assert VotesFor(results, vs[i], t);
      }
    }
  }

  /** A new option comes last, an old one keeps its place. */
  lemma OrderStep(results: seq<seq<Hit>>, vs: seq<nat>, options: seq<Option>, v: nat, i: nat, options': seq<Option>)
    requires (forall i | 0 <= i < |vs| :: vs[i] < |results|) && v < |results| && results[v] != []
    requires Counted(results, vs, options) && InOrderSeen(results, vs, options) && i <= |options|
    requires forall j | 0 <= j < i :: options[j].text != results[v][0].text
    requires |options'| == (if i < |options| then |options| else i + 1)
    requires forall j | 0 <= j < |options| :: options'[j].text == options[j].text
    requires options'[i].text == results[v][0].text
    ensures InOrderSeen(results, vs + [v], options')
  {
    forall x, y | 0 <= x < y < |options'| ensures Earlier(results, vs + [v], options'[x].text, options'[y].text) {
      if y < |options| {
        assert Earlier(results, vs, options[x].text, options[y].text);
        EarlierStays(results, vs, v, options[x].text, options[y].text);
      } else {
        var t, u := options[x].text, options'[y].text;
        assert Tallied(results, vs, options[x]);
        VotedFor(results, vs, t);
        VotedFor(results, vs, u);
        assert !Listed(options, u);
        var k :| 0 <= k < |vs| && VotesFor(results, vs[k], t);
        assert VotesFor(results, (vs + [v])[k], t);
      }
    }
  }

  /** One entry of the option table. */
  datatype Option = Option(text: string, count: nat, sum: real)

  predicate Tallied(results: seq<seq<Hit>>, vs: seq<nat>, o: Option)
    requires forall i | 0 <= i < |vs| :: vs[i] < |results|
  {
    o.count == Votes(results, vs, o.text) > 0 && o.sum == Weight(results, vs, o.text)
  }

  predicate Listed(options: seq<Option>, text: string) {
    exists i :: 0 <= i < |options| && options[i].text == text
  }

  predicate TextsDiffer(options: seq<Option>) {
    forall i, j | 0 <= i < j < |options| :: options[i].text != options[j].text
  }

  /** The table holds every option voted for, once, with its votes and their weight. */
  ghost predicate Counted(results: seq<seq<Hit>>, vs: seq<nat>, options: seq<Option>)
    requires forall i | 0 <= i < |vs| :: vs[i] < |results|
  {
    && TextsDiffer(options)
    && (forall i | 0 <= i < |options| :: Tallied(results, vs, options[i]))
    && forall u :: Votes(results, vs, u) > 0 ==> Listed(options, u)
  }

  method Vote(results: seq<seq<Hit>>, vs: seq<nat>) returns (single: seq<Hit>)
    requires forall i | 0 <= i < |vs| :: vs[i] < |results|
    ensures Elected(results, vs, single)
  {
    var options: seq<Option> := [];
    for x := 0 to |vs|
      invariant Counted(results, vs[..x], options) && InOrderSeen(results, vs[..x], options)
      invariant options == [] <==> forall i | 0 <= i < x :: results[vs[i]] == []
    {
      assert vs[..x + 1][..x] == vs[..x];
      var r := results[vs[x]];
      if r == [] {
        forall u ensures Votes(results, vs[..x + 1], u) == Votes(results, vs[..x], u)
                         && Weight(results, vs[..x + 1], u) == Weight(results, vs[..x], u) {
        }
        forall i, j | 0 <= i < j < |options|
          ensures Earlier(results, vs[..x + 1], options[i].text, options[j].text) {
          EarlierStays(results, vs[..x], vs[x], options[i].text, options[j].text);
          assert vs[..x] + [vs[x]] == vs[..x + 1];
        }
        continue;
      }
      options := CountOne(results, vs[..x], options, vs[x]);
      assert vs[..x + 1] == vs[..x] + [vs[x]];
    }
    assert vs[..|vs|] == vs;
    if options == [] {
      return [];
    }
    var best := Best(options);
    single := [InPrompt(options[best].text, options[best].sum / (options[best].count as real))];
  }

  /** The first of the entries that no other beats. */
  method Best(options: seq<Option>) returns (best: nat)
    requires options != []
    ensures best < |options|
    ensures forall j | 0 <= j < |options| ::
              AtLeast(options[best].count, options[best].sum, options[j].count, options[j].sum)
    ensures forall j | 0 <= j < best :: options[j].count != options[best].count || options[j].sum != options[best].sum
  {
    best := 0;
    for i := 1 to |options|
      invariant best < i
      invariant forall j | 0 <= j < i ::
                  AtLeast(options[best].count, options[best].sum, options[j].count, options[j].sum)
      invariant forall j | 0 <= j < best ::
                  options[j].count != options[best].count || options[j].sum != options[best].sum
    {
      if !AtLeast(options[best].count, options[best].sum, options[i].count, options[i].sum) {
        best := i;
      }
    }
  }

  method CountOne(results: seq<seq<Hit>>, vs: seq<nat>, options: seq<Option>, v: nat) returns (options': seq<Option>)
    requires (forall i | 0 <= i < |vs| :: vs[i] < |results|) && v < |results| && results[v] != []
    requires Counted(results, vs, options) && InOrderSeen(results, vs, options)
    ensures options' != [] && Counted(results, vs + [v], options') && InOrderSeen(results, vs + [v], options')
  {
    var first := results[v][0];
    assert (vs + [v])[..|vs|] == vs;
    var i := 0;
    while i < |options| && options[i].text != first.text
      invariant 0 <= i <= |options| && forall j | 0 <= j < i :: options[j].text != first.text
    {
      i := i + 1;
    }
    if i == |options| {
      NoVotesNoWeight(results, vs, first.text);
      options' := options + [Option(first.text, 1, first.probability)];
    } else {
      options' := options[i := Option(first.text, options[i].count + 1, options[i].sum + first.probability)];
    }
    CountedStep(results, vs, options, v, i, options');
    OrderStep(results, vs, options, v, i, options');
  }

  /** One vote: its option's entry grows, or a new one is added, and nothing else changes. */
  lemma CountedStep(results: seq<seq<Hit>>, vs: seq<nat>, options: seq<Option>, v: nat, i: nat, options': seq<Option>)
    requires (forall i | 0 <= i < |vs| :: vs[i] < |results|) && v < |results| && results[v] != []
    requires Counted(results, vs, options) && i <= |options|
    requires forall j | 0 <= j < i :: options[j].text != results[v][0].text
    requires i < |options| ==> options[i].text == results[v][0].text
    requires |options'| == (if i < |options| then |options| else i + 1)
    requires forall j | 0 <= j < |options| && j != i :: options'[j] == options[j]
    requires options'[i].text == results[v][0].text && Tallied(results, vs + [v], options'[i])
    ensures Counted(results, vs + [v], options')
  {
    var t := results[v][0].text;
    assert (vs + [v])[..|vs|] == vs;
    forall j | 0 <= j < |options'| ensures Tallied(results, vs + [v], options'[j]) {
      if j != i {
        assert Tallied(results, vs, options[j]) && options[j].text != t;
      }
    }
    forall u | Votes(results, vs + [v], u) > 0 ensures Listed(options', u) {
      if u == t {
        assert options'[i].text == u;
      } else {
        assert Listed(options, u);
        var j :| 0 <= j < |options| && options[j].text == u;
        assert options'[j].text == u;
      }
    }
  }

  lemma {:induction false} NoVotesNoWeight(results: seq<seq<Hit>>, vs: seq<nat>, text: string)
    requires (forall i | 0 <= i < |vs| :: vs[i] < |results|) && Votes(results, vs, text) == 0
    ensures Weight(results, vs, text) == 0.0
  {
    if vs != [] {
      NoVotesNoWeight(results, vs[..|vs| - 1], text);
    }
  }

  // ---------- From pieces to whole texts ----------

  /** The pieces of text k carry the prompt of text k. */
  predicate PromptsOk(texts: seq<string>, prompts: seq<string>, max: int, short: seq<string>,
                      examples: seq<Example>, k: nat)
    requires 1 <= max && k < |texts| == |prompts| && |examples| <= |short|
  {
    forall i | Base(texts, max, k) <= i < Base(texts, max, k + 1) && i < |examples| ::
      examples[i] == Example(short[i], prompts[k])
  }

  /** One prompt per piece, then piece and prompt are paired by number. */
  method PairPrompts(texts: seq<string>, prompts: seq<string>, max: int, short: seq<string>, mapping: seq<seq<nat>>)
    returns (examples: seq<Example>)
    requires 1 <= max && |prompts| == |texts| && SplitOk(texts, max, short, mapping, |texts|)
    ensures |examples| == |short| && forall i | 0 <= i < |short| :: examples[i].text == short[i]
    ensures forall k | 0 <= k < |texts| :: PromptsOk(texts, prompts, max, short, examples, k)
    ensures forall k, i | 0 <= k < |texts| && 0 <= i < |mapping[k]| ::
              && mapping[k][i] < |examples|
              && examples[mapping[k][i]] == Example(short[mapping[k][i]], prompts[k])
  {
    examples := Pair(texts, prompts, max, short, mapping);
    forall k, i | 0 <= k < |texts| && 0 <= i < |mapping[k]|
      ensures mapping[k][i] < |examples| && examples[mapping[k][i]] == Example(short[mapping[k][i]], prompts[k])
    {
      assert TextOk(texts, max, short, mapping, k) && PromptsOk(texts, prompts, max, short, examples, k);
    }
  }

  method Pair(texts: seq<string>, prompts: seq<string>, max: int, short: seq<string>, mapping: seq<seq<nat>>)
    returns (examples: seq<Example>)
    requires 1 <= max && |prompts| == |texts| && SplitOk(texts, max, short, mapping, |texts|)
    ensures |examples| == |short| && forall i | 0 <= i < |short| :: examples[i].text == short[i]
    ensures forall k | 0 <= k < |texts| :: PromptsOk(texts, prompts, max, short, examples, k)
  {
    var labels: seq<string> := [];
    for k := 0 to |mapping|
      invariant |labels| == Base(texts, max, k)
      invariant forall x | 0 <= x < k :: LabelsOk(texts, prompts, max, labels, x)
    {
      assert TextOk(texts, max, short, mapping, k);
      var more := seq(|mapping[k]|, _ => prompts[k]);
      forall x | 0 <= x < k ensures LabelsOk(texts, prompts, max, labels + more, x) {
        assert LabelsOk(texts, prompts, max, labels, x);
        BaseGrows(texts, max, x + 1, k);
      }
      labels := labels + more;
    }
    examples := seq(|short|, i requires 0 <= i < |short| => Example(short[i], labels[i]));
    forall k | 0 <= k < |texts| ensures PromptsOk(texts, prompts, max, short, examples, k) {
      assert LabelsOk(texts, prompts, max, labels, k);
    }
  }

  predicate LabelsOk(texts: seq<string>, prompts: seq<string>, max: int, labels: seq<string>, k: nat)
    requires 1 <= max && k < |texts| == |prompts|
  {
    forall i | Base(texts, max, k) <= i < Base(texts, max, k + 1) && i < |labels| :: labels[i] == prompts[k]
  }

  lemma MappingInRange(texts: seq<string>, max: int, short: seq<string>, mapping: seq<seq<nat>>)
    requires 1 <= max && SplitOk(texts, max, short, mapping, |texts|)
    ensures forall k, i | 0 <= k < |mapping| && 0 <= i < |mapping[k]| ::
              mapping[k][i] < |short| && (mapping[k][i] == 0 ==> i == 0)
  {
    forall k, i | 0 <= k < |mapping| && 0 <= i < |mapping[k]|
      ensures mapping[k][i] < |short| && (mapping[k][i] == 0 ==> i == 0)
    {
      assert TextOk(texts, max, short, mapping, k);
    }
  }

  /** If every hit is a slice of its piece, every joined hit is that slice of its text. */
  lemma AllJoinedOk(texts: seq<string>, max: int, short: seq<string>, mapping: seq<seq<nat>>, results: seq<seq<Hit>>)
    requires 1 <= max && SplitOk(texts, max, short, mapping, |texts|) && |results| == |short|
    requires forall k, i | 0 <= k < |mapping| && 0 <= i < |mapping[k]| :: mapping[k][i] < |short|
    requires forall x | 0 <= x < |results| :: HitsOf(short[x], results[x])
    ensures forall k | 0 <= k < |texts| ::
              HitsOf(texts[k], JoinedHits(results, short, mapping[k], |mapping[k]|))
  {
    forall k | 0 <= k < |texts|
      ensures HitsOf(texts[k], JoinedHits(results, short, mapping[k], |mapping[k]|))
    {
      assert TextOk(texts, max, short, mapping, k);
      OneJoinedOk(short, results, mapping[k], texts[k], Base(texts, max, k), Base(texts, max, k + 1));
    }
  }

  /** The same for one text, if it holds of the hits of its own pieces. */
  lemma OneJoinedOk(short: seq<string>, results: seq<seq<Hit>>, vs: seq<nat>, text: string, from: nat, to: nat)
    requires |results| == |short| && from <= to <= |short| && vs == Range(from, to - from)
    requires Join(short[from..to]) == text
    requires forall x | from <= x < to :: HitsOf(short[x], results[x])
    ensures HitsOf(text, JoinedHits(results, short, vs, |vs|))
  {
    assert |vs| == to - from && from + |vs| == to;
    assert short[from..from + |vs|] == short[from..to];
    JoinedHitsOk(results, short, vs, |vs|, text, from);
  }

  /** Offsets add up: every joined hit is the slice it names of the whole text. */
  lemma {:induction false} JoinedHitsOk(results: seq<seq<Hit>>, short: seq<string>, vs: seq<nat>, i: nat,
                                        text: string, base: nat)
    requires |results| == |short| && i <= |vs| && base + |vs| <= |short| && vs == Range(base, |vs|)
    requires Join(short[base..base + |vs|]) == text
    requires forall x | base <= x < base + |vs| :: HitsOf(short[x], results[x])
    ensures HitsOf(text, JoinedHits(results, short, vs, i))
  {
    if i > 0 {
      JoinedHitsOk(results, short, vs, i - 1, text, base);
      var offset := OffsetAt(short, vs, i - 1);
      PieceInside(short, vs, i - 1, text, base);
      forall h <- MovedAll(results[vs[i - 1]], offset) ensures HitOf(text, h) {
        var j :| 0 <= j < |results[vs[i - 1]]| && Moved(results[vs[i - 1]][j], offset) == h;
        assert results[vs[i - 1]][j] in results[vs[i - 1]];
        SliceOfPiece(text, short[vs[i - 1]], offset, results[vs[i - 1]][j]);
      }
    }
  }

  lemma SliceOfPiece(text: string, piece: string, offset: nat, h: Hit)
    requires offset + |piece| <= |text| && text[offset..offset + |piece|] == piece && HitOf(piece, h)
    ensures HitOf(text, Moved(h, offset))
  {
    if h.InText? && h.start <= h.end {
      SliceOfSlice(text, offset, |piece|, h.start, h.end);
    }
  }

  /** The hit's text is what its offsets select. */
  predicate Names(text: string, h: Hit) {
    h.InText? ==> h.text == PySlice(text, h.start, h.end)
  }

  /** A hit of a piece, moved behind what stands before, still selects its text if and only if
      it ends inside the piece, is empty, or no text follows that it could reach into. Its end
      may thus be anywhere in a last piece, as slices are clipped. */
  lemma MovedNamesIff(before: string, piece: string, after: string, h: Hit)
    requires h.InText? && 0 <= h.start && 0 <= h.end && Names(piece, h)
    ensures Names(before + piece + after, Moved(h, |before|))
            <==> h.end <= |piece| || h.end <= h.start || after == "" || h.start >= |piece| + |after|
  {
    var text, a, b := before + piece + after, h.start, h.end;
    var here, there := PySlice(piece, a, b), PySlice(text, |before| + a, |before| + b);
    if a < b {
      if a <= |piece| && (b <= |piece| || after == "") {
        var to := Clip(b, |piece|);
        assert text[|before|..|before| + |piece|] == piece;
        SliceOfSlice(text, |before|, |piece|, a, to);
        assert Clip(|before| + b, |text|) == |before| + to;
      } else if a < |piece| + |after| && b > |piece| && after != "" {
        assert |there| > |here|;
      }
    }
  }

  /** Piece i of a text stands at the sum of the lengths before it. */
  lemma PieceInside(short: seq<string>, vs: seq<nat>, i: nat, text: string, base: nat)
    requires i < |vs| && base + |vs| <= |short| && vs == Range(base, |vs|)
    requires Join(short[base..base + |vs|]) == text
    ensures var o := OffsetAt(short, vs, i);
            o + |short[vs[i]]| <= |text| && text[o..o + |short[vs[i]]|] == short[vs[i]]
  {
    var parts := short[base..base + |vs|];
    forall x | 0 <= x < |vs| ensures parts[x] == short[vs[x]] {
    }
    OffsetIsLength(short, vs, i, parts);
    PartInside(parts, i);
  }

  lemma PartInside(parts: seq<string>, i: nat)
    requires i < |parts|
    ensures var o := |Join(parts[..i])|;
            o + |parts[i]| <= |Join(parts)| && Join(parts)[o..o + |parts[i]|] == parts[i]
  {
    JoinPrefix(parts, i + 1);
    assert parts[..i + 1][..i] == parts[..i];
    var o, whole := |Join(parts[..i])|, Join(parts);
    assert Join(parts[..i + 1]) == Join(parts[..i]) + parts[i];
    assert whole[o..o + |parts[i]|] == whole[..o + |parts[i]|][o..];
  }

  lemma {:induction false} OffsetIsLength(short: seq<string>, vs: seq<nat>, i: nat, parts: seq<string>)
    requires i <= |vs| == |parts| && forall x | 0 <= x < |vs| :: vs[x] < |short| && parts[x] == short[vs[x]]
    ensures OffsetAt(short, vs, i) == |Join(parts[..i])|
  {
    if i > 0 {
      OffsetIsLength(short, vs, i - 1, parts);
      assert parts[..i][..i - 1] == parts[..i - 1];
    }
  }

  lemma {:induction false} JoinPrefix(parts: seq<string>, i: nat)
    requires i <= |parts|
    ensures |Join(parts[..i])| <= |Join(parts)| && Join(parts)[..|Join(parts[..i])|] == Join(parts[..i])
  {
    if i == |parts| {
      assert parts[..i] == parts;
    } else {
      var n := |parts| - 1;
      JoinPrefix(parts[..n], i);
      assert parts[..n][..i] == parts[..i];
    }
  }
}
