/** From predicted token spans to hits: token numbers become character offsets, those of
    the prompt negative ones. */
module TokenHits {
  import opened PythonSlices
  import opened SpanMatching
  import opened TextSplitting

  type Offset = (int, int)

  /** Tokens of the prompt: those after the first token, up to the first empty offset. */
  function PromptTokens(offsets: seq<Offset>): (n: nat)
    ensures offsets != [] ==> n < |offsets|
    ensures forall i | 1 <= i <= n < |offsets| :: offsets[i] != (0, 0)
    ensures n + 1 < |offsets| ==> offsets[n + 1] == (0, 0)
  {
    if offsets == [] then 0 else Leading(offsets[1..])
  }

  function Leading(offsets: seq<Offset>): (n: nat)
    ensures n <= |offsets| && forall i | 0 <= i < n :: offsets[i] != (0, 0)
    ensures n < |offsets| ==> offsets[n] == (0, 0)
  {
    if offsets == [] || offsets[0] == (0, 0) then 0 else 1 + Leading(offsets[1..])
  }

  /** Offsets as the hits report them. */
  function Rebased(offsets: seq<Offset>, n: nat, i: nat): Offset
    requires i < |offsets|
  {
    if 1 <= i <= n then (offsets[i].0 - (n + 1), offsets[i].1 - (n + 1)) else offsets[i]
  }

  /** What one span of tokens is reported as. */
  function Reported(offsets: seq<Offset>, span: (Pos, Pos)): Id
    requires 0 <= span.0.id < |offsets| && 0 <= span.1.id < |offsets|
  {
    var n := PromptTokens(offsets);
    Id(Rebased(offsets, n, span.0.id).0, Rebased(offsets, n, span.1.id).1, span.0.probability * span.1.probability)
  }

  method GetIdAndProb(spans: seq<(Pos, Pos)>, offsets: array<Offset>) returns (ids: seq<Id>)
    requires forall x | 0 <= x < |spans| :: 0 <= spans[x].0.id < offsets.Length && 0 <= spans[x].1.id < offsets.Length
    modifies offsets
    ensures |ids| == |spans|
    ensures forall x | 0 <= x < |spans| :: ids[x] == Reported(old(offsets[..]), spans[x])
    ensures forall i | 0 <= i < offsets.Length ::
              offsets[i] == Rebased(old(offsets[..]), PromptTokens(old(offsets[..])), i)
  {
    ghost var was := offsets[..];
    var n := CountPrompt(offsets);
    for i := 1 to n + 1
      invariant forall j | 0 <= j < offsets.Length ::
                  offsets[j] == if j < i then Rebased(was, n, j) else was[j]
    {
      offsets[i] := (offsets[i].0 - (n + 1), offsets[i].1 - (n + 1));
    }
    ids := [];
    for x := 0 to |spans|
      invariant |ids| == x && forall y | 0 <= y < x :: ids[y] == Reported(was, spans[y])
    {
      var (s, e) := spans[x];
      ids := ids + [Id(offsets[s.id].0, offsets[e.id].1, s.probability * e.probability)];
    }
  }

  method CountPrompt(offsets: array<Offset>) returns (n: nat)
    ensures n == PromptTokens(offsets[..]) && (n == 0 || n < offsets.Length)
  {
    n := 0;
    if offsets.Length == 0 {
      return;
    }
    assert offsets[..][1..] == offsets[1..];
    for i := 1 to offsets.Length
      invariant n == i - 1 && PromptTokens(offsets[..]) == n + Leading(offsets[i..])
    {
      assert offsets[i..][1..] == offsets[i + 1..];
      if offsets[i] == (0, 0) {
        return;
      }
      n := n + 1;
    }
  }

  // ---------- When the reported offsets select the right characters ----------

  /** The piece a..b of the prompt, reported negatively with n prompt tokens, comes back. */
  predicate PieceComesBack(text: string, prompt: string, n: nat, a: nat, b: nat, p: real)
    requires a < b <= |prompt|
  {
    Convert(Example(text, prompt), Id(a - (n + 1), b - (n + 1), p)) == [InPrompt(prompt[a..b], p)]
  }

  ghost predicate PromptComesBack(text: string, prompt: string, n: nat) {
    forall a: nat, b: nat, p: real | a < b <= |prompt| :: PieceComesBack(text, prompt, n, a, b, p)
  }

  /** Offsets are moved down by the number of prompt tokens but back up by the number of
      prompt characters: options in the prompt are found exactly when the two agree. */
  lemma PromptComesBackIff(text: string, prompt: string, n: nat)
    requires prompt != ""
    ensures PromptComesBack(text, prompt, n) <==> n == |prompt|
  {
    if n != |prompt| {
      WholePromptLost(text, prompt, n);
      assert !PieceComesBack(text, prompt, n, 0, |prompt|, 1.0);
    }
  }

  /** With too few prompt tokens the whole prompt is dropped, with too many it is cut. */
  lemma WholePromptLost(text: string, prompt: string, n: nat)
    requires prompt != "" && n != |prompt|
    ensures !PieceComesBack(text, prompt, n, 0, |prompt|, 1.0)
  {
    var len := |prompt|;
    if n > len {
      assert |PySlice(prompt, len - n, len + len - n)| < len;
    }
  }

  /** Offsets of a tokenized pair: first token, prompt tokens, separator, text tokens. */
  predicate PairOffsets(offsets: seq<Offset>, prompt: string, text: string) {
    && (offsets != [] ==> offsets[0] == (0, 0))
    && forall i | 0 <= i < |offsets| ::
         0 <= offsets[i].0 <= offsets[i].1 <= if i <= PromptTokens(offsets) then |prompt| else |text|
  }

  /** With one token per prompt character every span of tokens means what it names: a
      piece of the text, a piece of the prompt, or nothing if it runs across. */
  lemma SpansMeanWhatTheyName(offsets: seq<Offset>, prompt: string, text: string, s: Pos, e: Pos)
    requires PairOffsets(offsets, prompt, text) && PromptTokens(offsets) == |prompt|
    requires 1 <= s.id <= e.id < |offsets|
    ensures var a, b, p := offsets[s.id].0, offsets[e.id].1, s.probability * e.probability;
            Convert(Example(text, prompt), Reported(offsets, (s, e)))
            == if s.id > |prompt| then [InText(PySlice(text, a, b), a, b, p)]
               else if e.id > |prompt| then []
               else [InPrompt(PySlice(prompt, a, b), p)]
  {
    var n, id, p := |prompt|, Reported(offsets, (s, e)), s.probability * e.probability;
    ReportedAs(offsets, prompt, text, s, e);
    if e.id <= n {
      MovedBack(text, prompt, offsets[s.id].0, offsets[e.id].1, p);
    } else if s.id <= n {
      assert id.start < 0 <= id.end;
    } else {
      assert 0 <= id.start && 0 <= id.end;
    }
  }

  lemma ReportedAs(offsets: seq<Offset>, prompt: string, text: string, s: Pos, e: Pos)
    requires PairOffsets(offsets, prompt, text) && 1 <= s.id <= e.id < |offsets|
    ensures var n, a, b := PromptTokens(offsets), offsets[s.id].0, offsets[e.id].1;
            && Reported(offsets, (s, e)) == Id(if s.id <= n then a - (n + 1) else a,
                                               if e.id <= n then b - (n + 1) else b, s.probability * e.probability)
            && 0 <= a && (s.id <= n ==> a <= |prompt|) && 0 <= b <= if e.id <= n then |prompt| else |text|
  {
    assert offsets[s.id].0 <= offsets[s.id].1 && offsets[e.id].0 <= offsets[e.id].1;
  }

  lemma MovedBack(text: string, prompt: string, a: int, b: int, p: real)
    requires a <= |prompt| && b <= |prompt|
    ensures var n := |prompt|;
            Convert(Example(text, prompt), Id(a - (n + 1), b - (n + 1), p)) == [InPrompt(PySlice(prompt, a, b), p)]
  {
    var id := Id(a - (|prompt| + 1), b - (|prompt| + 1), p);
    assert id.start + (|prompt| + 1) == a && id.end + (|prompt| + 1) == b;
  }

  // ---------- When text hits end inside their piece ----------

  /** The piece a..b of the prompt, reported with n prompt tokens, is no wrong text hit. */
  predicate PieceStaysOut(text: string, prompt: string, n: nat, a: nat, b: nat, p: real)
    requires a < b <= |prompt|
  {
    HitsOf(text, Convert(Example(text, prompt), Id(a - (n + 1), b - (n + 1), p)))
  }

  ghost predicate PromptStaysOut(text: string, prompt: string, n: nat) {
    forall a: nat, b: nat, p: real | a < b <= |prompt| :: PieceStaysOut(text, prompt, n, a, b, p)
  }

  /** The prompt has at most n + 1 characters more than the text: with n prompt tokens its
      last character is then reported before the end of the text. */
  predicate EndsFit(prompt: string, n: nat, text: string) {
    |prompt| <= n + 1 + |text|
  }

  /** With too few prompt tokens a piece of the prompt is reported as a text hit. All such hits
      are slices of the text that end inside it exactly when the ends fit. */
  lemma PromptStaysOutIff(text: string, prompt: string, n: nat)
    ensures PromptStaysOut(text, prompt, n) <==> EndsFit(prompt, n, text)
  {
    if !EndsFit(prompt, n, text) {
      LastCharacterStraysOut(text, prompt, n);
      var a: nat := |prompt| - 1;
      assert !PieceStaysOut(text, prompt, n, a, |prompt|, 1.0);
    }
  }

  /** The input that fails otherwise: the prompt's last character, reported behind the text. */
  lemma LastCharacterStraysOut(text: string, prompt: string, n: nat)
    requires !EndsFit(prompt, n, text)
    ensures var a: nat := |prompt| - 1; !PieceStaysOut(text, prompt, n, a, |prompt|, 1.0)
  {
    var id := Id(|prompt| - 1 - (n + 1), |prompt| - (n + 1), 1.0);
    var hits := Convert(Example(text, prompt), id);
    assert hits[0].InText? && hits[0].end > |text|;
    assert hits[0] in hits;
  }

  /** Every hit of a span of tokens, special tokens included, is then a slice of the text that
      ends inside it. */
  lemma TextEndsInside(offsets: seq<Offset>, prompt: string, text: string, s: Pos, e: Pos)
    requires PairOffsets(offsets, prompt, text) && EndsFit(prompt, PromptTokens(offsets), text)
    requires 0 <= s.id <= e.id < |offsets|
    ensures Reported(offsets, (s, e)).end <= |text|
    ensures HitsOf(text, Convert(Example(text, prompt), Reported(offsets, (s, e))))
  {
    assert offsets[e.id].1 <= if e.id <= PromptTokens(offsets) then |prompt| else |text|;
  }
}
