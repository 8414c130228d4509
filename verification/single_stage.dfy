/** One stage of the predictor, end to end: cut the texts, ask the model, turn probabilities
    into spans, spans into offsets and hits, and join the pieces. */
module SingleStage {
  import opened PythonSlices
  import opened SpanMatching
  import opened TextSplitting
  import opened TokenHits

  /** What tokenizer and model return for one question: per token its offset and its
      probabilities to start and to end an answer. */
  datatype Scored = Scored(offsets: seq<Offset>, startProbs: seq<real>, endProbs: seq<real>)

  /** The tokenizer's contract: one offset per token, inside prompt or text. */
  predicate Tokenized(r: Scored, ex: Example) {
    && |r.startProbs| == |r.endProbs| == |r.offsets| && PairOffsets(r.offsets, ex.prompt, ex.text)
  }

  /** The positions above the limit, in order. */
  predicate AreAbove(ids: seq<Pos>, probs: seq<real>, limit: real) {
    && (forall x | 0 <= x < |ids| :: 0 <= ids[x].id < |probs| && ids[x].probability == probs[ids[x].id] > limit)
    && (forall x, y | 0 <= x < y < |ids| :: ids[x].id < ids[y].id)
    && forall i | 0 <= i < |probs| && probs[i] > limit :: Pos(i, probs[i]) in ids
  }

  method GetBoolIdsGreaterThan(probs: seq<real>, limit: real) returns (ids: seq<Pos>)
    ensures AreAbove(ids, probs, limit)
  {
    ids := [];
    for i := 0 to |probs|
      invariant forall x | 0 <= x < |ids| ::
                  0 <= ids[x].id < i && ids[x].probability == probs[ids[x].id] > limit
      invariant forall x, y | 0 <= x < y < |ids| :: ids[x].id < ids[y].id
      invariant forall j | 0 <= j < i && probs[j] > limit :: Pos(j, probs[j]) in ids
    {
      if probs[i] > limit {
        ids := ids + [Pos(i, probs[i])];
      }
    }
  }

  /** A start and an end above the limit with none between them. */
  ghost predicate IsAnswer(r: Scored, limit: real, s: Pos, e: Pos) {
    && 0 <= s.id <= e.id < |r.offsets| == |r.startProbs| == |r.endProbs|
    && s.probability == r.startProbs[s.id] > limit && e.probability == r.endProbs[e.id] > limit
    && (forall i | s.id < i <= e.id :: r.startProbs[i] <= limit)
    && (forall i | s.id <= i < e.id :: r.endProbs[i] <= limit)
  }

  ghost predicate FromAnswer(id: Id, r: Scored, limit: real) {
    exists s, e :: IsAnswer(r, limit, s, e) && id == Reported(r.offsets, (s, e))
  }

  /** These are the answers, each once, and what is reported of them. */
  ghost predicate ReportsAs(ids: seq<Id>, r: Scored, limit: real, spans: seq<(Pos, Pos)>) {
    && (forall s, e :: (s, e) in spans <==> IsAnswer(r, limit, s, e))
    && (forall x, y | 0 <= x < y < |spans| :: spans[x] != spans[y])
    && |ids| == |spans| && forall x | 0 <= x < |ids| ::
         && 0 <= spans[x].0.id < |r.offsets| && 0 <= spans[x].1.id < |r.offsets|
         && ids[x] == Reported(r.offsets, spans[x])
  }

  /** The spans reported are exactly the answers, each once. */
  ghost predicate Reports(ids: seq<Id>, r: Scored, limit: real) {
    exists spans :: ReportsAs(ids, r, limit, spans)
  }

  lemma ReportsFacts(ids: seq<Id>, r: Scored, limit: real)
    requires Reports(ids, r, limit)
    ensures forall s, e | IsAnswer(r, limit, s, e) :: Reported(r.offsets, (s, e)) in ids
    ensures forall x | 0 <= x < |ids| :: FromAnswer(ids[x], r, limit)
  {
    var spans: seq<(Pos, Pos)> :| ReportsAs(ids, r, limit, spans);
    forall s, e | IsAnswer(r, limit, s, e) ensures Reported(r.offsets, (s, e)) in ids {
      assert (s, e) in spans;
      var x :| 0 <= x < |spans| && spans[x] == (s, e);
      assert ids[x] == Reported(r.offsets, (s, e));
    }
    forall x | 0 <= x < |ids| ensures FromAnswer(ids[x], r, limit) {
      var s, e := spans[x].0, spans[x].1;
      assert spans[x] in spans && (s, e) == spans[x];
      assert ids[x] == Reported(r.offsets, (s, e));
    }
  }

  lemma AnswersAreSpans(r: Scored, limit: real, starts: seq<Pos>, ends: seq<Pos>, s: Pos, e: Pos)
    requires |r.startProbs| == |r.endProbs| == |r.offsets|
    requires AreAbove(starts, r.startProbs, limit) && AreAbove(ends, r.endProbs, limit)
    ensures IsSpan(SetOf(starts), SetOf(ends), s, e) <==> IsAnswer(r, limit, s, e)
  {
    if IsAnswer(r, limit, s, e) {
      assert Pos(s.id, s.probability) in starts && Pos(e.id, e.probability) in ends;
      assert s in SetOf(starts) && e in SetOf(ends);
    }
    if IsSpan(SetOf(starts), SetOf(ends), s, e) {
      forall i | s.id < i <= e.id ensures r.startProbs[i] <= limit {
        assert Pos(i, r.startProbs[i]) !in SetOf(starts);
      }
      forall i | s.id <= i < e.id ensures r.endProbs[i] <= limit {
        assert Pos(i, r.endProbs[i]) !in SetOf(ends);
      }
    }
  }

  /** From probabilities to reported spans, for one piece. */
  method Extract(r: Scored, limit: real) returns (ids: seq<Id>)
    requires |r.startProbs| == |r.endProbs| == |r.offsets|
    ensures Reports(ids, r, limit)
  {
    var starts := GetBoolIdsGreaterThan(r.startProbs, limit);
    var ends := GetBoolIdsGreaterThan(r.endProbs, limit);
    var found := GetSpan(starts, ends);
    forall s, e ensures (s, e) in found <==> IsAnswer(r, limit, s, e) {
      AnswersAreSpans(r, limit, starts, ends, s, e);
    }
    var spans := Listed(found);
    forall x | 0 <= x < |spans|
      ensures 0 <= spans[x].0.id < |r.offsets| && 0 <= spans[x].1.id < |r.offsets|
      ensures IsAnswer(r, limit, spans[x].0, spans[x].1)
    {
      assert spans[x] in spans && (spans[x].0, spans[x].1) == spans[x];
    }
    var offsets := new Offset[|r.offsets|](i requires 0 <= i < |r.offsets| => r.offsets[i]);
    assert offsets[..] == r.offsets;
    ids := GetIdAndProb(spans, offsets);
    assert ReportsAs(ids, r, limit, spans);
  }

  /** The elements of a set in some order, each once. */
  method Listed(found: set<(Pos, Pos)>) returns (spans: seq<(Pos, Pos)>)
    ensures forall x :: x in spans <==> x in found
    ensures forall i, j | 0 <= i < j < |spans| :: spans[i] != spans[j]
  {
    spans := [];
    var rest := found;
    while rest != {}
      invariant rest <= found && forall x :: x in spans <==> x in found - rest
      invariant forall i, j | 0 <= i < j < |spans| :: spans[i] != spans[j]
      decreases rest
    {
      var x :| x in rest;
      assert found - (rest - {x}) == found - rest + {x};
      spans := spans + [x];
      rest := rest - {x};
    }
  }

  /** Every hit of a piece is a slice of the piece, if the ends fit. */
  lemma HitsOfPiece(ex: Example, r: Scored, limit: real, ids: seq<Id>)
    requires Tokenized(r, ex) && Reports(ids, r, limit) && EndsFit(ex.prompt, PromptTokens(r.offsets), ex.text)
    ensures HitsOf(ex.text, ConvertAll(ex, ids))
  {
    ReportsFacts(ids, r, limit);
    forall x | 0 <= x < |ids| ensures ids[x].end <= |ex.text| {
      assert FromAnswer(ids[x], r, limit);
      var s, e :| IsAnswer(r, limit, s, e) && ids[x] == Reported(r.offsets, (s, e));
      TextEndsInside(r.offsets, ex.prompt, ex.text, s, e);
    }
    ConvertedHits(ex, ids);
  }

  /** All pieces of text k have room for their prompt's tokens. */
  ghost predicate PiecesFit(texts: seq<string>, max: int, examples: seq<Example>, model: Example -> Scored, k: nat)
    requires 1 <= max && k < |texts| && |examples| == Base(texts, max, |texts|)
  {
    forall i | Base(texts, max, k) <= i < Base(texts, max, k + 1) && i < |examples| ::
      EndsFit(examples[i].prompt, PromptTokens(model(examples[i]).offsets), examples[i].text)
  }

  /** The result of an answer in the text of piece i of text k stands among that text's
      results, at its place in the whole text. */
  ghost predicate Found(short: seq<string>, vs: seq<nat>, joined: seq<Hit>, r: Scored, i: nat, s: Pos, e: Pos)
    requires (forall j | 0 <= j < |vs| :: vs[j] < |short|) && i < |vs|
    requires 0 <= s.id < |r.offsets| && 0 <= e.id < |r.offsets|
  {
    exists y :: 0 <= y < |joined| && joined[y] == AnswerHit(r, short[vs[i]], s, e, Total(Lengths(short, vs), i))
  }

  /** What an answer names in the text of a piece that stands at position d. */
  function AnswerHit(r: Scored, text: string, s: Pos, e: Pos, d: int): Hit
    requires 0 <= s.id < |r.offsets| && 0 <= e.id < |r.offsets|
  {
    var from, to := r.offsets[s.id].0, r.offsets[e.id].1;
    InText(PySlice(text, from, to), from + d, to + d, s.probability * e.probability)
  }

  /** The whole stage. Text k is cut up, its pieces are asked with prompt k, and
      the hits of a piece are those of its answers; joining loses, adds and reorders none, so
      that every answer in a piece is found again; and every extraction result of a text whose
      pieces fit is the slice of the text that it names. */
  method SingleStagePredict(texts: seq<string>, prompts: seq<string>, max: int, model: Example -> Scored, limit: real)
    returns (joined: seq<seq<Hit>>, ghost short: seq<string>, ghost mapping: seq<seq<nat>>,
             ghost examples: seq<Example>, ghost ids: seq<seq<Id>>, ghost results: seq<seq<Hit>>)
    requires 1 <= max && |prompts| == |texts| && forall ex :: Tokenized(model(ex), ex)
    ensures AllCut(texts, max, short, mapping) && InRange(mapping, |short|)
    ensures |joined| == |texts| && |results| == |ids| == |examples| == |short| == Base(texts, max, |texts|)
    ensures forall k, i | 0 <= k < |texts| && 0 <= i < |mapping[k]| ::
              examples[mapping[k][i]] == Example(short[mapping[k][i]], prompts[k])
    ensures forall x | 0 <= x < |examples| ::
              Reports(ids[x], model(examples[x]), limit) && AllConverted(examples[x], ids[x], results[x])
    ensures (exists x :: 0 <= x < |results| && DecidesForOptions(results, x)) ==>
              forall k | 0 <= k < |texts| :: Elected(results, mapping[k], joined[k])
    ensures !(exists x :: 0 <= x < |results| && DecidesForOptions(results, x)) ==>
              forall k | 0 <= k < |texts| ::
                && AllInPlace(results, short, mapping[k], joined[k])
                && (PiecesFit(texts, max, examples, model, k) ==> HitsOf(texts[k], joined[k]))
    ensures !(exists x :: 0 <= x < |results| && DecidesForOptions(results, x)) ==>
              forall k, i, s, e | 0 <= k < |texts| && 0 <= i < |mapping[k]| ::
                var r := model(examples[mapping[k][i]]);
                IsAnswer(r, limit, s, e) && PromptTokens(r.offsets) < s.id ==>
                  Found(short, mapping[k], joined[k], r, i, s, e)
  {
    var pieces, numbers := AutoSplitter(texts, max);
    short, mapping := pieces, numbers;
    var questions := PairPrompts(texts, prompts, max, pieces, numbers);
    examples := questions;
    var sentenceIds := ExtractAll(questions, model, limit);
    var converted := ConvertIds(questions, sentenceIds);
    ids, results := sentenceIds, converted;
    MappingInRange(texts, max, short, mapping);
    joined := AutoJoiner(converted, pieces, numbers);
    ClassificationIff(results);
    if !IsClassification(results) {
      forall k | 0 <= k < |texts| && PiecesFit(texts, max, examples, model, k) ensures HitsOf(texts[k], joined[k]) {
        TextOfPieces(texts, max, short, mapping, examples, model, limit, ids, results, k);
      }
      forall k, i, s, e | 0 <= k < |texts| && 0 <= i < |mapping[k]|
        ensures var r := model(examples[mapping[k][i]]);
                IsAnswer(r, limit, s, e) && PromptTokens(r.offsets) < s.id ==>
                  Found(short, mapping[k], joined[k], r, i, s, e)
      {
        var x := mapping[k][i];
        var r := model(examples[x]);
        if IsAnswer(r, limit, s, e) && PromptTokens(r.offsets) < s.id {
          assert Tokenized(r, examples[x]);
          AnswerIsFound(examples[x], r, limit, ids[x], short, mapping[k], results, joined[k], i, s, e);
        }
      }
    }
  }

  predicate InRange(mapping: seq<seq<nat>>, n: nat) {
    forall k, i | 0 <= k < |mapping| && 0 <= i < |mapping[k]| :: mapping[k][i] < n
  }

  lemma AnswerIsFound(ex: Example, r: Scored, limit: real, ids: seq<Id>, short: seq<string>, vs: seq<nat>,
                      results: seq<seq<Hit>>, joined: seq<Hit>, i: nat, s: Pos, e: Pos)
    requires |results| == |short| && (forall j | 0 <= j < |vs| :: vs[j] < |short|) && i < |vs|
    requires Tokenized(r, ex) && ex.text == short[vs[i]] && Reports(ids, r, limit)
    requires AllConverted(ex, ids, results[vs[i]]) && AllInPlace(results, short, vs, joined)
    requires IsAnswer(r, limit, s, e) && PromptTokens(r.offsets) < s.id
    ensures Found(short, vs, joined, r, i, s, e)
  {
    var id := InItsText(ex, r, limit, ids, s, e);
    var y := IdIsPlaced(ex, ids, short, vs, results, joined, i, id);
    PlacedIsFound(short, vs, joined, r, i, s, e, id, y);
  }

  lemma PlacedIsFound(short: seq<string>, vs: seq<nat>, joined: seq<Hit>, r: Scored, i: nat, s: Pos, e: Pos, id: Id,
                      y: nat)
    requires (forall j | 0 <= j < |vs| :: vs[j] < |short|) && i < |vs| && y < |joined|
    requires 0 <= s.id < |r.offsets| && 0 <= e.id < |r.offsets| && Names(r, s, e, id)
    requires var d := Total(Lengths(short, vs), i);
             joined[y] == InText(PySlice(short[vs[i]], id.start, id.end), id.start + d, id.end + d, id.probability)
    ensures Found(short, vs, joined, r, i, s, e)
  {
    HitOfAnswer(r, short[vs[i]], s, e, Total(Lengths(short, vs), i), id);
  }

  /** The answer's tokens and what is reported of it. */
  predicate Names(r: Scored, s: Pos, e: Pos, id: Id)
    requires 0 <= s.id < |r.offsets| && 0 <= e.id < |r.offsets|
  {
    && id.start == r.offsets[s.id].0 && id.end == r.offsets[e.id].1
    && id.probability == Reported(r.offsets, (s, e)).probability
  }

  lemma HitOfAnswer(r: Scored, text: string, s: Pos, e: Pos, d: int, id: Id)
    requires 0 <= s.id < |r.offsets| && 0 <= e.id < |r.offsets| && Names(r, s, e, id)
    ensures InText(PySlice(text, id.start, id.end), id.start + d, id.end + d, id.probability)
            == AnswerHit(r, text, s, e, d)
  {
  }

  lemma IdIsPlaced(ex: Example, ids: seq<Id>, short: seq<string>, vs: seq<nat>,
                   results: seq<seq<Hit>>, joined: seq<Hit>, i: nat, id: Id)
    returns (y: nat)
    requires |results| == |short| && (forall j | 0 <= j < |vs| :: vs[j] < |short|) && i < |vs|
    requires ex.text == short[vs[i]] && id in ids && !Across(id) && 0 <= id.end
    requires AllConverted(ex, ids, results[vs[i]]) && AllInPlace(results, short, vs, joined)
    ensures var d := Total(Lengths(short, vs), i);
            && y < |joined|
            && joined[y] == InText(PySlice(short[vs[i]], id.start, id.end), id.start + d, id.end + d, id.probability)
  {
    var x := IdConverts(ex, ids, results[vs[i]], id);
    assert InPlace(results, short, vs, joined, i, x);
    y := Total(HitCounts(results, vs), i) + x;
  }

  /** The answer's id, read off its tokens. */
  lemma InItsText(ex: Example, r: Scored, limit: real, ids: seq<Id>, s: Pos, e: Pos) returns (id: Id)
    requires Tokenized(r, ex) && Reports(ids, r, limit)
    requires IsAnswer(r, limit, s, e) && PromptTokens(r.offsets) < s.id
    ensures id in ids && !Across(id) && 0 <= id.end
    ensures Names(r, s, e, id)
  {
    ReportsFacts(ids, r, limit);
    ReportedAs(r.offsets, ex.prompt, ex.text, s, e);
    id := Reported(r.offsets, (s, e));
  }

  lemma IdConverts(ex: Example, ids: seq<Id>, hs: seq<Hit>, id: Id) returns (x: nat)
    requires AllConverted(ex, ids, hs) && id in ids && !Across(id) && 0 <= id.end
    ensures x < |hs| && hs[x] == InText(PySlice(ex.text, id.start, id.end), id.start, id.end, id.probability)
  {
    var y :| 0 <= y < |ids| && ids[y] == id;
    x := Kept(ids[..y]);
    assert Becomes(ex, ids[y], hs[x]);
  }

  method ExtractAll(questions: seq<Example>, model: Example -> Scored, limit: real) returns (ids: seq<seq<Id>>)
    requires forall ex :: Tokenized(model(ex), ex)
    ensures |ids| == |questions| && forall i | 0 <= i < |ids| :: Reports(ids[i], model(questions[i]), limit)
  {
    ids := [];
    for i := 0 to |questions|
      invariant |ids| == i && forall j | 0 <= j < i :: Reports(ids[j], model(questions[j]), limit)
    {
      var r := model(questions[i]);
      assert Tokenized(r, questions[i]);
      var found := Extract(r, limit);
      ids := ids + [found];
    }
  }

  lemma TextOfPieces(texts: seq<string>, max: int, short: seq<string>, mapping: seq<seq<nat>>, examples: seq<Example>,
                     model: Example -> Scored, limit: real, ids: seq<seq<Id>>, results: seq<seq<Hit>>, k: nat)
    requires 1 <= max && SplitOk(texts, max, short, mapping, |texts|) && k < |texts|
    requires |results| == |ids| == |examples| == |short| && forall i | 0 <= i < |short| :: examples[i].text == short[i]
    requires forall ex :: Tokenized(model(ex), ex)
    requires forall i | 0 <= i < |ids| ::
               Reports(ids[i], model(examples[i]), limit) && results[i] == ConvertAll(examples[i], ids[i])
    requires PiecesFit(texts, max, examples, model, k)
    requires forall j | 0 <= j < |mapping[k]| :: mapping[k][j] < |short|
    ensures HitsOf(texts[k], JoinedHits(results, short, mapping[k], |mapping[k]|))
  {
    var from, to := Base(texts, max, k), Base(texts, max, k + 1);
    assert TextOk(texts, max, short, mapping, k);
    forall x | from <= x < to ensures HitsOf(short[x], results[x]) {
      assert examples[x].text == short[x];
      PieceHits(examples[x], model, limit, ids[x]);
    }
    PiecesJoin(texts, max, short, mapping, results, k);
  }

  lemma PiecesJoin(texts: seq<string>, max: int, short: seq<string>, mapping: seq<seq<nat>>,
                   results: seq<seq<Hit>>, k: nat)
    requires 1 <= max && k < |texts| && TextOk(texts, max, short, mapping, k) && |results| == |short|
    requires forall x | Base(texts, max, k) <= x < Base(texts, max, k + 1) :: HitsOf(short[x], results[x])
    requires forall j | 0 <= j < |mapping[k]| :: mapping[k][j] < |short|
    ensures HitsOf(texts[k], JoinedHits(results, short, mapping[k], |mapping[k]|))
  {
    OneJoinedOk(short, results, mapping[k], texts[k], Base(texts, max, k), Base(texts, max, k + 1));
  }

  lemma PieceHits(ex: Example, model: Example -> Scored, limit: real, ids: seq<Id>)
    requires (forall x :: Tokenized(model(x), x)) && Reports(ids, model(ex), limit)
    requires EndsFit(ex.prompt, PromptTokens(model(ex).offsets), ex.text)
    ensures HitsOf(ex.text, ConvertAll(ex, ids))
  {
    assert Tokenized(model(ex), ex);
    HitsOfPiece(ex, model(ex), limit, ids);
  }
}
