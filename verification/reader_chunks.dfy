/** Cutting one training line into chunks the model can take, without cutting a label. */
module ReaderChunks {
  import opened PythonSlices

  datatype Label = Label(text: string, start: int, end: int)

  datatype Line = Line(content: string, results: seq<Label>, prompt: string)

  datatype Outcome = Lines(lines: seq<Line>) | TooSmall

  // ---------- What the labels of a line look like ----------

  /** Labelled spans: inside the content, in order, disjoint. */
  predicate Spans(results: seq<Label>, len: int) {
    && (forall i | 0 <= i < |results| ::
         0 <= results[i].start <= results[i].end <= len && 0 < results[i].end)
    && forall i, j | 0 <= i < j < |results| :: results[i].end <= results[j].start
  }

  predicate AllFit(results: seq<Label>, m: int) {
    forall r <- results :: r.end - r.start <= m
  }

  /** Sentence classification: the label lies in the prompt, at negative offsets. */
  predicate PromptLabels(results: seq<Label>) {
    forall r <- results :: r.end <= 0
  }

  // ---------- One iteration of the outer loop ----------

  /** Where to cut: the limit, or the start of the first label it would cut through. */
  function Cut(m: int, results: seq<Label>): int {
    if results == [] then m
    else if results[0].start + 1 <= m < results[0].end then results[0].start
    else Cut(m, results[1..])
  }

  /** How many labels at the front end after 0 and not after the cut. */
  function PopCount(cut: int, results: seq<Label>): (k: nat)
    ensures k <= |results|
    ensures forall i | 0 <= i < k :: 0 < results[i].end <= cut
    ensures k < |results| ==> results[k].end > cut || results[k].end <= 0
  {
    if results == [] || results[0].end > cut || results[0].end <= 0 then 0
    else 1 + PopCount(cut, results[1..])
  }

  /** The labels of this chunk and the labels left over. Meeting a prompt label, the
      chunk gets every label still in the list and the list stays as it is. */
  function Take(cut: int, results: seq<Label>): (seq<Label>, seq<Label>) {
    var k := PopCount(cut, results);
    (if k < |results| && results[k].end <= cut then results[k..] else results[..k], results[k..])
  }

  function Shift(results: seq<Label>, d: int): seq<Label> {
    seq(|results|, i requires 0 <= i < |results| =>
      Label(results[i].text, results[i].start + d, results[i].end + d))
  }

  /** How many labels stand before the first prompt label. */
  function SpanCount(results: seq<Label>): (k: nat)
    ensures k <= |results|
    ensures forall i | 0 <= i < k :: 0 < results[i].end
    ensures k < |results| ==> results[k].end <= 0
  {
    if results == [] || results[0].end <= 0 then 0 else 1 + SpanCount(results[1..])
  }

  /** Offsets are rebased up to the first prompt label. */
  function Rebase(results: seq<Label>, cut: int): seq<Label> {
    Shift(results[..SpanCount(results)], -cut) + results[SpanCount(results)..]
  }

  /** The line one iteration emits, and what it leaves: content[:cut] and content[cut:]. */
  function Emitted(prompt: string, m: int, content: string, results: seq<Label>): Line {
    Line(content[..Clip(Cut(m, results), |content|)], Take(Cut(m, results), results).0, prompt)
  }

  function LeftContent(m: int, content: string, results: seq<Label>): string {
    content[Clip(Cut(m, results), |content|)..]
  }

  function LeftLabels(m: int, results: seq<Label>): seq<Label> {
    Rebase(Take(Cut(m, results), results).1, Cut(m, results))
  }

  // ---------- What the output means ----------

  function Contents(lines: seq<Line>): string {
    if lines == [] then "" else lines[0].content + Contents(lines[1..])
  }

  /** All labels, moved back to offsets of the whole text starting at `offset`. */
  function Restored(lines: seq<Line>, offset: int): seq<Label> {
    if lines == [] then []
    else Shift(lines[0].results, offset) + Restored(lines[1..], offset + |lines[0].content|)
  }

  predicate LabelsInside(line: Line) {
    forall r <- line.results :: 0 <= r.start <= r.end <= |line.content|
  }

  /** Contents concatenates, and nothing else. */
  lemma ContentsOne(l: Line)
    ensures Contents([]) == "" && Contents([l]) == l.content
  {
    assert [l][1..] == [];
  }

  lemma {:induction false} ContentsAppend(a: seq<Line>, b: seq<Line>)
    ensures Contents(a + b) == Contents(a) + Contents(b)
  {
    if a == [] {
      assert a + b == b;
    } else {
      assert (a + b)[1..] == a[1..] + b;
      ContentsAppend(a[1..], b);
    }
  }

  lemma {:induction false} RestoredAppend(a: seq<Line>, b: seq<Line>, offset: int)
    ensures Restored(a + b, offset) == Restored(a, offset) + Restored(b, offset + |Contents(a)|)
  {
    if a == [] {
      assert a + b == b;
    } else {
      assert (a + b)[1..] == a[1..] + b;
      RestoredAppend(a[1..], b, offset + |a[0].content|);
    }
  }

  lemma AppendLine(a: seq<Line>, l: Line)
    ensures Contents(a + [l]) == Contents(a) + l.content
    ensures Restored(a + [l], 0) == Restored(a, 0) + Shift(l.results, |Contents(a)|)
  {
    ContentsAppend(a, [l]);
    RestoredAppend(a, [l], 0);
    assert [l][1..] == [];
  }

  // ---------- Facts about one iteration on spans ----------

  /** The cut is the limit, or the start of a label that begins before the limit and ends
      after it. */
  lemma {:induction false} CutIsStart(m: int, results: seq<Label>) returns (k: nat)
    ensures k < |results| ==> results[k].start == Cut(m, results) && results[k].start + 1 <= m < results[k].end
    ensures k >= |results| ==> Cut(m, results) == m
  {
    if results == [] {
      k := 0;
    } else if results[0].start + 1 <= m < results[0].end {
      k := 0;
    } else {
      var k' := CutIsStart(m, results[1..]);
      k := k' + 1;
    }
  }

  lemma CutFacts(m: int, results: seq<Label>, len: int)
    requires Spans(results, len) && 1 <= m
    ensures 0 <= Cut(m, results) <= m && (AllFit(results, m) ==> 1 <= Cut(m, results))
    ensures forall i | 0 <= i < |results| :: results[i].end <= Cut(m, results) || Cut(m, results) <= results[i].start
  {
    var k := CutIsStart(m, results);
    if k < |results| {
      assert results[k] in results;
    } else {
      NoneCrosses(m, results);
    }
  }

  /** If the limit itself is the cut, it runs through no label. */
  lemma {:induction false} NoneCrosses(m: int, results: seq<Label>)
    requires Cut(m, results) == m
    ensures forall i | 0 <= i < |results| :: results[i].end <= m || m <= results[i].start
  {
    if results != [] {
      NoneCrosses(m, results[1..]);
      forall i | 0 <= i < |results| ensures results[i].end <= m || m <= results[i].start {
        if i > 0 {
          assert results[i] == results[1..][i - 1];
        }
      }
    }
  }

  lemma ShiftZero(results: seq<Label>)
    ensures Shift(results, 0) == results
  {
    forall i | 0 <= i < |results| ensures Shift(results, 0)[i] == results[i] {
    }
  }

  /** One iteration on spans: the list splits at some k, no label is cut, and what
      remains is again a list of spans over what remains of the content. */
  lemma IterationFacts(m: int, results: seq<Label>, len: int) returns (k: nat)
    requires Spans(results, len) && 1 <= m <= len
    ensures var cut := Cut(m, results);
            && 0 <= cut <= m && (AllFit(results, m) ==> 1 <= cut)
            && k <= |results| && Take(cut, results) == (results[..k], results[k..])
            && (forall i | 0 <= i < k :: 0 <= results[i].start <= results[i].end <= cut)
            && (forall i | k <= i < |results| :: cut <= results[i].start)
            && Rebase(results[k..], cut) == Shift(results[k..], -cut)
            && Spans(Rebase(results[k..], cut), len - cut)
            && (cut == len ==> k == |results|)
  {
    CutFacts(m, results, len);
    k := FactsAt(Cut(m, results), results, len);
  }

  /** The same for any cut that crosses no span. */
  lemma FactsAt(cut: int, results: seq<Label>, len: int) returns (k: nat)
    requires Spans(results, len) && 0 <= cut
    requires forall i | 0 <= i < |results| :: results[i].end <= cut || cut <= results[i].start
    ensures k <= |results| && Take(cut, results) == (results[..k], results[k..])
    ensures forall i | 0 <= i < k :: 0 <= results[i].start <= results[i].end <= cut
    ensures forall i | k <= i < |results| :: cut <= results[i].start
    ensures Rebase(results[k..], cut) == Shift(results[k..], -cut) && Spans(Rebase(results[k..], cut), len - cut)
    ensures cut == len ==> k == |results|
  {
    k := SplitPoint(cut, results, len);
    RestSpans(cut, results, len, k);
  }

  lemma SplitPoint(cut: int, results: seq<Label>, len: int) returns (k: nat)
    requires Spans(results, len) && forall i | 0 <= i < |results| :: results[i].end <= cut || cut <= results[i].start
    ensures k <= |results| && Take(cut, results) == (results[..k], results[k..])
    ensures forall i | 0 <= i < k :: 0 <= results[i].start <= results[i].end <= cut
    ensures forall i | k <= i < |results| :: cut <= results[i].start && cut < results[i].end
  {
    k := PopCount(cut, results);
    forall i | k <= i < |results| ensures cut <= results[i].start && cut < results[i].end {
      if k < i {
        assert results[k].end <= results[i].start;
      }
    }
  }

  lemma RestSpans(cut: int, results: seq<Label>, len: int, k: nat)
    requires Spans(results, len) && k <= |results| && 0 <= cut
    requires forall i | k <= i < |results| :: cut <= results[i].start && cut < results[i].end
    ensures Rebase(results[k..], cut) == Shift(results[k..], -cut)
    ensures Spans(Shift(results[k..], -cut), len - cut)
    ensures cut == len ==> k == |results|
  {
    var rest := results[k..];
    forall i | 0 <= i < |rest| ensures rest[i] == results[k + i] {
    }
    WholeRebased(rest, cut);
  }

  /** Without prompt labels all labels are moved. */
  lemma WholeRebased(rest: seq<Label>, cut: int)
    requires 0 <= cut && forall i | 0 <= i < |rest| :: cut < rest[i].end
    ensures Rebase(rest, cut) == Shift(rest, -cut)
  {
    assert SpanCount(rest) == |rest| && rest[..|rest|] == rest;
  }

  lemma RebaseFits(m: int, results: seq<Label>, k: nat, cut: int)
    requires k <= |results| && AllFit(results, m)
    ensures AllFit(Shift(results[k..], -cut), m)
  {
    var shifted := Shift(results[k..], -cut);
    forall i | 0 <= i < |shifted| ensures shifted[i].end - shifted[i].start <= m {
      assert results[k + i] in results;
    }
  }

  // ---------- When the loop ends at all ----------

  /** Does the loop, entered with this content and these labels, end within n iterations? */
  predicate EndsWithin(m: int, content: string, results: seq<Label>, n: nat)
    decreases n
  {
    n > 0 &&
    var res := LeftContent(m, content, results);
    |res| < m || |res| == 0 || EndsWithin(m, res, LeftLabels(m, results), n - 1)
  }

  lemma {:induction false} LongLabelNeverEnds(m: int, content: string, results: seq<Label>, n: nat, r: Label)
    requires Spans(results, |content|) && 1 <= m <= |content|
    requires r in results && r.end - r.start > m
    ensures !EndsWithin(m, content, results, n)
    decreases n
  {
    if n > 0 {
      var r' := LongLabelStays(m, content, results, r);
      LongLabelNeverEnds(m, LeftContent(m, content, results), LeftLabels(m, results), n - 1, r');
    }
  }

  /** A label longer than the limit is neither emitted nor cut off. */
  lemma LongLabelStays(m: int, content: string, results: seq<Label>, r: Label) returns (r': Label)
    requires Spans(results, |content|) && 1 <= m <= |content|
    requires r in results && r.end - r.start > m
    ensures Spans(LeftLabels(m, results), |LeftContent(m, content, results)|)
    ensures r' in LeftLabels(m, results) && r'.end - r'.start > m
    ensures m < |LeftContent(m, content, results)|
  {
    var k := IterationFacts(m, results, |content|);
    var cut := Cut(m, results);
    var i :| 0 <= i < |results| && results[i] == r;
    assert k <= i;
    var left := Shift(results[k..], -cut);
    assert LeftLabels(m, results) == left && |LeftContent(m, content, results)| == |content| - cut;
    r' := LongLabelShifted(m, results, k, cut, i, |content| - cut);
  }

  lemma LongLabelShifted(m: int, results: seq<Label>, k: nat, cut: int, i: nat, len: int) returns (r': Label)
    requires k <= i < |results| && results[i].end - results[i].start > m && Spans(Shift(results[k..], -cut), len)
    ensures r' in Shift(results[k..], -cut) && r'.end - r'.start > m && m < len
  {
    r' := Shift(results[k..], -cut)[i - k];
    assert r' == Label(results[i].text, results[i].start - cut, results[i].end - cut);
  }

  lemma {:induction false} FittingLabelsEnd(m: int, content: string, results: seq<Label>, n: nat)
    requires Spans(results, |content|) && 1 <= m <= |content| && AllFit(results, m)
    requires |content| <= n
    ensures EndsWithin(m, content, results, n)
    decreases |content|
  {
    var k := IterationFacts(m, results, |content|);
    RebaseFits(m, results, k, Cut(m, results));
    if m <= |LeftContent(m, content, results)| {
      FittingLabelsEnd(m, LeftContent(m, content, results), LeftLabels(m, results), n - 1);
    }
  }

  ghost predicate Ends(m: int, content: string, results: seq<Label>) {
    exists n: nat :: EndsWithin(m, content, results, n)
  }

  /** The loop ends exactly when every label fits into one chunk. */
  lemma EndsIffAllFit(m: int, content: string, results: seq<Label>)
    requires Spans(results, |content|) && 1 <= m <= |content|
    ensures Ends(m, content, results) <==> AllFit(results, m)
  {
    if AllFit(results, m) {
      var n: nat := |content|;
      FittingLabelsEnd(m, content, results, n);
      assert EndsWithin(m, content, results, n);
    } else {
      var r :| r in results && r.end - r.start > m;
      forall n: nat ensures !EndsWithin(m, content, results, n) {
        LongLabelNeverEnds(m, content, results, n, r);
      }
    }
  }

  /** Prompt labels always let it end. */
  lemma {:induction false} PromptLabelsEnd(m: int, content: string, results: seq<Label>, n: nat)
    requires PromptLabels(results) && 1 <= m && |content| <= n && 0 < n
    ensures EndsWithin(m, content, results, n)
    decreases n
  {
    var res := LeftContent(m, content, results);
    PromptLeft(m, content, results);
    if m <= |res| {
      PromptLabelsEnd(m, res, results, n - 1);
    }
    EndsStep(m, content, results, n);
  }

  lemma PromptLeft(m: int, content: string, results: seq<Label>)
    requires PromptLabels(results) && 1 <= m
    ensures |LeftContent(m, content, results)| == (if |content| <= m then 0 else |content| - m)
    ensures LeftLabels(m, results) == results
  {
    PromptIteration(m, results);
  }

  lemma EndsStep(m: int, content: string, results: seq<Label>, n: nat)
    requires 0 < n
    ensures var res := LeftContent(m, content, results);
            EndsWithin(m, content, results, n)
            <==> |res| < m || |res| == 0 || EndsWithin(m, res, LeftLabels(m, results), n - 1)
  {
  }

  // ---------- The reader ----------

  /** Labels the loop can finish on: all in the prompt, or spans that fit. */
  predicate Manageable(results: seq<Label>, len: int, m: int) {
    PromptLabels(results) || (Spans(results, len) && AllFit(results, m))
  }

  /** The j-th label of line i selects there the characters that its restored form, one of
      the original labels, selects in the whole content. */
  predicate SelectsSame(line: Line, lines: seq<Line>, i: nat, j: nat)
    requires i < |lines| && j < |lines[i].results|
  {
    var o, r := |Contents(lines[..i])|, lines[i].results[j];
    && 0 <= o + r.start <= o + r.end <= |line.content| && 0 <= r.start <= r.end <= |lines[i].content|
    && line.content[o + r.start..o + r.end] == lines[i].content[r.start..r.end]
    && Label(r.text, r.start + o, r.end + o) in line.results
  }

  ghost predicate AllSelectSame(line: Line, lines: seq<Line>) {
    forall i: nat, j: nat | i < |lines| && j < |lines[i].results| :: SelectsSame(line, lines, i, j)
  }

  lemma LinesSelectSame(line: Line, lines: seq<Line>)
    requires Contents(lines) == line.content && Restored(lines, 0) == line.results
    requires forall l <- lines :: LabelsInside(l)
    ensures AllSelectSame(line, lines)
  {
    forall i: nat, j: nat | i < |lines| && j < |lines[i].results| ensures SelectsSame(line, lines, i, j) {
      OneSelectsSame(line, lines, i, j);
    }
  }

  lemma OneSelectsSame(line: Line, lines: seq<Line>, i: nat, j: nat)
    requires Contents(lines) == line.content && Restored(lines, 0) == line.results
    requires i < |lines| && j < |lines[i].results| && LabelsInside(lines[i])
    ensures SelectsSame(line, lines, i, j)
  {
    assert line.content[0..] == Contents(lines);
    SameCharacters(lines, 0, line.content, i, lines[i].results[j]);
    RestoredHere(line, lines, i, j);
  }

  lemma RestoredHere(line: Line, lines: seq<Line>, i: nat, j: nat)
    requires Restored(lines, 0) == line.results && i < |lines| && j < |lines[i].results|
    ensures var o, r := |Contents(lines[..i])|, lines[i].results[j];
            Label(r.text, r.start + o, r.end + o) in line.results
  {
    RestoredHas(lines, 0, i, j);
  }

  /** A chunk of n characters from position o on is as long as it may be: it has m of them,
      reaches the end, or a label begins there that the limit runs through. */
  ghost predicate Full(line: Line, m: int, o: int, n: int) {
    n == m || o + n == |line.content| || exists r :: r in line.results && r.start == o + n < o + m < r.end
  }

  ghost predicate Greedy(line: Line, m: int, lines: seq<Line>) {
    forall i | 0 <= i < |lines| :: Full(line, m, |Contents(lines[..i])|, |lines[i].content|)
  }

  lemma GreedyAppend(line: Line, m: int, lines: seq<Line>, l: Line)
    requires Greedy(line, m, lines) && Full(line, m, |Contents(lines)|, |l.content|)
    ensures Greedy(line, m, lines + [l])
  {
    forall i | 0 <= i <= |lines|
      ensures Full(line, m, |Contents((lines + [l])[..i])|, |(lines + [l])[i].content|)
    {
      assert (lines + [l])[..i] == lines[..i];
      assert lines[..|lines|] == lines;
    }
  }

  lemma CutIsFull(line: Line, m: int, lines: seq<Line>, content: string, results: seq<Label>)
    requires SplitInv(line, m, lines, content, results) && Manageable(line.results, |line.content|, m)
    requires 1 <= m <= |content|
    ensures Full(line, m, |Contents(lines)|, |Emitted(line.prompt, m, content, results).content|)
  {
    var o := |Contents(lines)|;
    if Spans(line.results, |line.content|) {
      CutFacts(m, results, |content|);
      var k := CutIsStart(m, results);
      if k < |results| {
        var r := results[k];
        assert (Restored(lines, 0) + Shift(results, o))[|Restored(lines, 0)| + k]
            == Label(r.text, r.start + o, r.end + o);
        assert Label(r.text, r.start + o, r.end + o) in line.results;
      }
    } else {
      PromptIteration(m, results);
    }
  }

  /** The content is kept for all labels on which the loop ends; limits and labels for spans
      and prompt labels. */
  method Reader(line: Line, maxSeqLen: int) returns (out: Outcome)
    requires 0 < maxSeqLen - |line.prompt| - 3 < |line.content| ==>
               Ends(maxSeqLen - |line.prompt| - 3, line.content, line.results)
    ensures out.TooSmall? <==> maxSeqLen <= |line.prompt| + 3
    ensures |line.prompt| + 3 < maxSeqLen && |line.prompt| + |line.content| + 3 <= maxSeqLen ==> out == Lines([line])
    ensures out.Lines? ==> Contents(out.lines) == line.content && forall l <- out.lines :: l.prompt == line.prompt
    ensures out.Lines? && (Spans(line.results, |line.content|) || PromptLabels(line.results)) ==>
              forall l <- out.lines ::
                && |l.prompt| + |l.content| + 3 <= maxSeqLen
                && (|line.prompt| + |line.content| + 3 > maxSeqLen ==> l.content != "")
    ensures out.Lines? && (Spans(line.results, |line.content|) || PromptLabels(line.results)) ==>
              Greedy(line, maxSeqLen - |line.prompt| - 3, out.lines)
    ensures out.Lines? && Spans(line.results, |line.content|) ==>
              && Restored(out.lines, 0) == line.results && (forall l <- out.lines :: LabelsInside(l))
              && AllSelectSame(line, out.lines)
    ensures out.Lines? && PromptLabels(line.results) && line.results != [] ==>
              forall l <- out.lines :: l.results == line.results
  {
    if maxSeqLen <= |line.prompt| + 3 {
      return TooSmall;
    }
    var max := maxSeqLen - |line.prompt| - 3;
    var lines;
    if |line.content| <= max {
      ShiftZero(line.results);
      assert [line][1..] == [] && [line][..0] == [];
      lines := [line];
    } else {
      lines := Split(line, max);
      if Spans(line.results, |line.content|) || PromptLabels(line.results) {
        FittingOrPrompt(line, max);
      }
      if PromptLabels(line.results) && line.results != [] {
        assert line.results[0] in line.results;
      }
    }
    if Spans(line.results, |line.content|) {
      LinesSelectSame(line, lines);
    }
    return Lines(lines);
  }

  /** Spans on which the loop ends fit. */
  lemma FittingOrPrompt(line: Line, m: int)
    requires 1 <= m < |line.content| && Ends(m, line.content, line.results)
    requires Spans(line.results, |line.content|) || PromptLabels(line.results)
    ensures Manageable(line.results, |line.content|, m)
  {
    if Spans(line.results, |line.content|) {
      EndsIffAllFit(m, line.content, line.results);
    }
  }

  predicate WholeKept(line: Line, lines: seq<Line>, content: string) {
    Contents(lines) + content == line.content && forall i | 0 <= i < |lines| :: lines[i].prompt == line.prompt
  }

  predicate ChunksOk(line: Line, m: int, lines: seq<Line>, content: string) {
    && Contents(lines) + content == line.content
    && forall i | 0 <= i < |lines| :: 1 <= |lines[i].content| <= m && lines[i].prompt == line.prompt
  }

  predicate SpansKept(line: Line, m: int, lines: seq<Line>, content: string, results: seq<Label>) {
    && Spans(results, |content|) && AllFit(results, m)
    && Restored(lines, 0) + Shift(results, |Contents(lines)|) == line.results
    && forall i | 0 <= i < |lines| :: LabelsInside(lines[i])
  }

  predicate PromptKept(line: Line, lines: seq<Line>, results: seq<Label>) {
    results == line.results && forall i | 0 <= i < |lines| :: lines[i].results == line.results
  }

  /** What the loop keeps: emitted lines plus remaining content and labels are the
      original ones. */
  predicate SplitInv(line: Line, m: int, lines: seq<Line>, content: string, results: seq<Label>) {
    && ChunksOk(line, m, lines, content)
    && if Spans(line.results, |line.content|) then SpansKept(line, m, lines, content, results)
       else PromptKept(line, lines, results)
  }

  /** Everything emitted: what is left is empty, or the prompt labels. */
  predicate Finished(line: Line, m: int, lines: seq<Line>) {
    SplitInv(line, m, lines, "", if Spans(line.results, |line.content|) then [] else line.results)
  }

  method Split(line: Line, m: int) returns (lines: seq<Line>)
    requires 1 <= m < |line.content| && Ends(m, line.content, line.results)
    ensures WholeKept(line, lines, "")
    ensures Manageable(line.results, |line.content|, m) ==> Finished(line, m, lines) && Greedy(line, m, lines)
  {
    lines := [];
    var content, results := line.content, line.results;
    ghost var n: nat :| EndsWithin(m, content, results, n);
    ghost var nice := Manageable(line.results, |line.content|, m);
    if nice {
      StartKept(line, m);
    }
    while true
      invariant WholeKept(line, lines, content) && m <= |content| && EndsWithin(m, content, results, n)
      invariant nice ==> SplitInv(line, m, lines, content, results) && Greedy(line, m, lines)
      decreases n
    {
      var cut := FindCut(m, results);
      WholeStep(line, m, lines, content, results);
      if nice {
        IterationKeeps(line, m, lines, content, results);
        CutIsFull(line, m, lines, content, results);
        GreedyAppend(line, m, lines, Emitted(line.prompt, m, content, results));
      }
      var current, res := content[..Clip(cut, |content|)], content[Clip(cut, |content|)..];
      var mine, rest := PopLabels(cut, results);
      lines := lines + [Line(current, mine, line.prompt)];
      results := RebaseLabels(rest, cut);
      if |res| == 0 {
        if nice {
          NothingLeft(line, m, lines, results);
        }
        break;
      } else if |res| < m {
        if nice {
          LastKeeps(line, m, lines, res, results);
          GreedyAppend(line, m, lines, Line(res, results, line.prompt));
        }
        AppendLine(lines, Line(res, results, line.prompt));
        lines := lines + [Line(res, results, line.prompt)];
        break;
      } else {
        content := res;
        n := n - 1;
      }
    }
  }

  /** Cutting off a chunk loses no content, wherever the cut is. */
  lemma WholeStep(line: Line, m: int, lines: seq<Line>, content: string, results: seq<Label>)
    requires WholeKept(line, lines, content)
    ensures WholeKept(line, lines + [Emitted(line.prompt, m, content, results)], LeftContent(m, content, results))
  {
    var l, left := Emitted(line.prompt, m, content, results), LeftContent(m, content, results);
    AppendLine(lines, l);
    assert content == l.content + left;
    assert Contents(lines) + (l.content + left) == (Contents(lines) + l.content) + left;
  }

  lemma StartKept(line: Line, m: int)
    requires Manageable(line.results, |line.content|, m)
    ensures SplitInv(line, m, [], line.content, line.results)
  {
    ShiftZero(line.results);
    if line.results != [] {
      assert line.results[0] in line.results;
    }
  }

  lemma NothingLeft(line: Line, m: int, lines: seq<Line>, results: seq<Label>)
    requires SplitInv(line, m, lines, "", results)
    requires Spans(line.results, |line.content|) ==> results == []
    ensures Finished(line, m, lines)
  {
  }

  /** The last, shorter piece takes all remaining labels. */
  lemma LastKeeps(line: Line, m: int, lines: seq<Line>, res: string, results: seq<Label>)
    requires SplitInv(line, m, lines, res, results) && 1 <= |res| < m
    ensures Finished(line, m, lines + [Line(res, results, line.prompt)])
  {
    AppendLine(lines, Line(res, results, line.prompt));
    assert LabelsInside(Line(res, results, line.prompt)) || !Spans(results, |res|);
    assert res + "" == res;
  }

  lemma IterationKeeps(line: Line, m: int, lines: seq<Line>, content: string, results: seq<Label>)
    requires SplitInv(line, m, lines, content, results) && 1 <= m <= |content|
    requires Manageable(line.results, |line.content|, m)
    ensures |LeftContent(m, content, results)| < |content|
    ensures SplitInv(line, m, lines + [Emitted(line.prompt, m, content, results)],
                     LeftContent(m, content, results), LeftLabels(m, results))
    ensures LeftContent(m, content, results) == "" && Spans(line.results, |line.content|) ==>
              LeftLabels(m, results) == []
  {
    var l, left := Emitted(line.prompt, m, content, results), LeftLabels(m, results);
    if Spans(line.results, |line.content|) {
      SpansIteration(line, m, lines, content, results);
    } else {
      PromptIteration(m, results);
      AppendPrompt(line, lines, results, l);
    }
    AppendChunk(line, m, lines, content, results);
    assert |LeftContent(m, content, results)| < |content|;
  }

  lemma AppendPrompt(line: Line, lines: seq<Line>, results: seq<Label>, l: Line)
    requires PromptKept(line, lines, results) && l.results == results
    ensures PromptKept(line, lines + [l], results)
  {
  }

  lemma AppendChunk(line: Line, m: int, lines: seq<Line>, content: string, results: seq<Label>)
    requires ChunksOk(line, m, lines, content) && 1 <= Cut(m, results) <= m <= |content|
    ensures ChunksOk(line, m, lines + [Emitted(line.prompt, m, content, results)], LeftContent(m, content, results))
  {
    var cut := Cut(m, results);
    assert content == content[..cut] + content[cut..];
    AddChunk(line, m, lines, Emitted(line.prompt, m, content, results), LeftContent(m, content, results));
  }

  lemma AddChunk(line: Line, m: int, lines: seq<Line>, l: Line, left: string)
    requires ChunksOk(line, m, lines, l.content + left) && 1 <= |l.content| <= m && l.prompt == line.prompt
    ensures ChunksOk(line, m, lines + [l], left)
  {
    AppendLine(lines, l);
    assert Contents(lines) + (l.content + left) == (Contents(lines) + l.content) + left;
  }

  lemma SpansIteration(line: Line, m: int, lines: seq<Line>, content: string, results: seq<Label>)
    requires SpansKept(line, m, lines, content, results) && 1 <= m <= |content|
    ensures 1 <= Cut(m, results) <= m
    ensures var lines' := lines + [Emitted(line.prompt, m, content, results)];
            && SpansKept(line, m, lines', LeftContent(m, content, results), LeftLabels(m, results))
            && (LeftContent(m, content, results) == "" ==> LeftLabels(m, results) == [])
  {
    var k := LeftSpans(line.prompt, m, content, results);
    RestoredStep(line, m, lines, content, results, k);
  }

  /** One iteration on fitting spans, without the lines emitted before. */
  lemma LeftSpans(prompt: string, m: int, content: string, results: seq<Label>) returns (k: nat)
    requires Spans(results, |content|) && AllFit(results, m) && 1 <= m <= |content|
    ensures 1 <= Cut(m, results) <= m
    ensures k <= |results| && Take(Cut(m, results), results) == (results[..k], results[k..])
    ensures LeftLabels(m, results) == Shift(results[k..], -Cut(m, results))
    ensures Spans(LeftLabels(m, results), |LeftContent(m, content, results)|) && AllFit(LeftLabels(m, results), m)
    ensures LabelsInside(Emitted(prompt, m, content, results))
    ensures LeftContent(m, content, results) == "" ==> LeftLabels(m, results) == []
  {
    k := IterationFacts(m, results, |content|);
    RebaseFits(m, results, k, Cut(m, results));
    forall r <- results[..k] ensures 0 <= r.start <= r.end <= Cut(m, results) {
      var i :| 0 <= i < k && results[i] == r;
    }
  }

  lemma RestoredStep(line: Line, m: int, lines: seq<Line>, content: string, results: seq<Label>, k: nat)
    requires k <= |results| && Take(Cut(m, results), results) == (results[..k], results[k..])
    requires LeftLabels(m, results) == Shift(results[k..], -Cut(m, results))
    requires 0 <= Cut(m, results) <= |content|
    requires Restored(lines, 0) + Shift(results, |Contents(lines)|) == line.results
    ensures var lines' := lines + [Emitted(line.prompt, m, content, results)];
            Restored(lines', 0) + Shift(LeftLabels(m, results), |Contents(lines')|) == line.results
  {
    var l, cut, n := Emitted(line.prompt, m, content, results), Cut(m, results), |Contents(lines)|;
    AppendLine(lines, l);
    ShiftSplit(results, k, n, cut);
    Associate(Restored(lines, 0), Shift(results[..k], n), Shift(Shift(results[k..], -cut), n + cut));
    assert l.results == results[..k] && |Contents(lines + [l])| == n + cut;
  }

  lemma Associate(a: seq<Label>, b: seq<Label>, c: seq<Label>)
    ensures (a + b) + c == a + (b + c)
  {
  }

  lemma ShiftSplit(results: seq<Label>, k: nat, n: int, cut: int)
    requires k <= |results|
    ensures Shift(results, n) == Shift(results[..k], n) + Shift(Shift(results[k..], -cut), n + cut)
  {
  }

  lemma PromptIteration(m: int, results: seq<Label>)
    requires PromptLabels(results) && 1 <= m
    ensures Cut(m, results) == m
    ensures Take(m, results) == (results, results)
    ensures Rebase(results, m) == results
  {
    NoSpanCut(m, results);
    if results != [] {
      assert results[0] in results;
      NothingPopped(m, results);
      NothingRebased(m, results);
    }
  }

  lemma NothingPopped(m: int, results: seq<Label>)
    requires results != [] && results[0].end <= 0 && 1 <= m
    ensures Take(m, results) == (results, results)
  {
    assert PopCount(m, results) == 0;
  }

  lemma NothingRebased(m: int, results: seq<Label>)
    requires results != [] && results[0].end <= 0
    ensures Rebase(results, m) == results
  {
    assert SpanCount(results) == 0;
  }

  lemma {:induction false} NoSpanCut(m: int, results: seq<Label>)
    requires PromptLabels(results) && 1 <= m
    ensures Cut(m, results) == m
  {
    if results != [] {
      assert results[0] in results;
      NoSpanCut(m, results[1..]);
    }
  }

  method FindCut(m: int, results: seq<Label>) returns (cut: int)
    ensures cut == Cut(m, results)
  {
    cut := m;
    for i := 0 to |results|
      invariant cut == m && Cut(m, results) == Cut(m, results[i..])
    {
      if results[i].start + 1 <= cut < results[i].end {
        cut := results[i].start;
        return;
      }
    }
  }

  method PopLabels(cut: int, results: seq<Label>) returns (mine: seq<Label>, rest: seq<Label>)
    ensures (mine, rest) == Take(cut, results)
  {
    mine, rest := [], results;
    ghost var k := 0;
    while true
      invariant k <= |results| && mine == results[..k] && rest == results[k..]
      invariant PopCount(cut, results) == k + PopCount(cut, rest)
      decreases |rest|
    {
      if |rest| == 0 {
        break;
      } else if rest[0].end <= cut {
        if rest[0].end > 0 {
          mine, rest, k := mine + [rest[0]], rest[1..], k + 1;
        } else {
          mine := rest;
          break;
        }
      } else {
        break;
      }
    }
  }

  method RebaseLabels(rest: seq<Label>, cut: int) returns (results: seq<Label>)
    ensures results == Rebase(rest, cut)
  {
    results := rest;
    var i := 0;
    while i < |rest|
      invariant 0 <= i <= SpanCount(rest) && |results| == |rest|
      invariant forall x | 0 <= x < i :: results[x] == Label(rest[x].text, rest[x].start - cut, rest[x].end - cut)
      invariant forall x | i <= x < |rest| :: results[x] == rest[x]
    {
      if results[i].end <= 0 {
        break;
      }
      results := results[i := Label(results[i].text, results[i].start - cut, results[i].end - cut)];
      i := i + 1;
    }
    assert i == SpanCount(rest);
  }

  /** Chunk i stands in the whole text after the chunks before it. */
  lemma {:induction false} ChunkPlace(lines: seq<Line>, offset: nat, whole: string, i: nat)
    requires offset <= |whole| && whole[offset..] == Contents(lines) && i < |lines|
    ensures var o := offset + |Contents(lines[..i])|;
            o + |lines[i].content| <= |whole| && whole[o..o + |lines[i].content|] == lines[i].content
  {
    var first := lines[0].content;
    if i == 0 {
      assert lines[..0] == [];
      assert whole[offset..offset + |first|] == whole[offset..][..|first|];
    } else {
      assert whole[offset + |first|..] == whole[offset..][|first|..] == Contents(lines[1..]);
      assert lines[1..][..i - 1] == lines[..i][1..];
      ChunkPlace(lines[1..], offset + |first|, whole, i - 1);
    }
  }

  lemma {:induction false} RestoredHas(lines: seq<Line>, offset: nat, i: nat, j: nat)
    requires i < |lines| && j < |lines[i].results|
    ensures var o, r := offset + |Contents(lines[..i])|, lines[i].results[j];
            Label(r.text, r.start + o, r.end + o) in Restored(lines, offset)
  {
    if i == 0 {
      assert lines[..0] == [];
      var r := lines[0].results[j];
      assert Shift(lines[0].results, offset)[j] == Label(r.text, r.start + offset, r.end + offset);
    } else {
      assert lines[1..][..i - 1] == lines[..i][1..];
      RestoredHas(lines[1..], offset + |lines[0].content|, i - 1, j);
    }
  }

  /** A label selects in its chunk the characters that its restored form selects in the
      whole text. */
  lemma SameCharacters(lines: seq<Line>, offset: nat, whole: string, i: nat, r: Label)
    requires offset <= |whole| && whole[offset..] == Contents(lines)
    requires i < |lines| && r in lines[i].results && LabelsInside(lines[i])
    ensures var o := offset + |Contents(lines[..i])|;
            && 0 <= o + r.start <= o + r.end <= |whole| && 0 <= r.start <= r.end <= |lines[i].content|
            && whole[o + r.start..o + r.end] == lines[i].content[r.start..r.end]
  {
    ChunkPlace(lines, offset, whole, i);
    PlacedSlice(whole, offset + |Contents(lines[..i])|, lines[i].content, r.start, r.end);
  }

  lemma PlacedSlice(s: string, o: nat, part: string, a: int, b: int)
    requires o + |part| <= |s| && s[o..o + |part|] == part && 0 <= a <= b <= |part|
    ensures s[o + a..o + b] == part[a..b]
  {
    SliceOfSlice(s, o, |part|, a, b);
  }
}
