/** Pairing predicted start and end positions into spans. */
module SpanMatching {

  /** A token position with its probability. */
  datatype Pos = Pos(id: int, probability: real)

  predicate DistinctIds(s: seq<Pos>) {
    forall i, j | 0 <= i < j < |s| :: s[i].id != s[j].id
  }

  predicate Ascending(s: seq<Pos>) {
    forall i, j | 0 <= i < j < |s| :: s[i].id < s[j].id
  }

  /** A start and an end with no other start after it up to the end and no other end from
      the start on before the end. */
  ghost predicate IsSpan(starts: set<Pos>, ends: set<Pos>, s: Pos, e: Pos) {
    && s in starts && e in ends && s.id <= e.id
    && (forall x <- starts :: !(s.id < x.id <= e.id))
    && (forall y <- ends :: !(s.id <= y.id < e.id))
  }

  ghost function SetOf(s: seq<Pos>): set<Pos> { set x | x in s }

  /** Spans are disjoint, and no start or end is used twice. */
  lemma SpansDisjoint(starts: set<Pos>, ends: set<Pos>, s: Pos, e: Pos, s': Pos, e': Pos)
    requires IsSpan(starts, ends, s, e) && IsSpan(starts, ends, s', e')
    ensures (s, e) == (s', e') || e.id < s'.id || e'.id < s.id || s.id == s'.id || e.id == e'.id
    ensures s == s' ==> e.id == e'.id
    ensures e == e' ==> s.id == s'.id
    ensures s.id != s'.id || e.id != e'.id ==> e.id < s'.id || e'.id < s.id
  {
    assert !(s.id < s'.id <= e.id) && !(s'.id < s.id <= e'.id);
    assert !(s.id <= e'.id < e.id) && !(s'.id <= e.id < e'.id);
  }

  method SortById(s: seq<Pos>) returns (r: seq<Pos>)
    requires DistinctIds(s)
    ensures Ascending(r) && SetOf(r) == SetOf(s)
  {
    r := [];
    for i := 0 to |s|
      invariant Ascending(r) && SetOf(r) == SetOf(s[..i])
    {
      var k := 0;
      while k < |r| && r[k].id < s[i].id
        invariant 0 <= k <= |r| && forall j | 0 <= j < k :: r[j].id < s[i].id
      {
        k := k + 1;
      }
      assert k < |r| ==> r[k] in SetOf(s[..i]);
      assert s[..i + 1] == s[..i] + [s[i]];
      InsertSorted(r, k, s[i]);
      r := r[..k] + [s[i]] + r[k..];
    }
    assert s[..|s|] == s;
  }

  lemma InsertSorted(r: seq<Pos>, k: nat, x: Pos)
    requires Ascending(r) && k <= |r| && (forall j | 0 <= j < k :: r[j].id < x.id)
    requires k < |r| ==> x.id < r[k].id
    ensures Ascending(r[..k] + [x] + r[k..]) && SetOf(r[..k] + [x] + r[k..]) == SetOf(r) + {x}
  {
    assert r == r[..k] + r[k..];
    forall j | k <= j < |r| ensures x.id < r[j].id {
      if k < j {
        assert r[k].id < r[j].id;
      }
    }
  }

  // ---------- The two pointers ----------

  /** Start i may pair with end j: at or before it, after the end before it. */
  predicate Candidate(a: seq<Pos>, b: seq<Pos>, i: int, j: int)
    requires 0 <= i < |a| && 0 <= j < |b|
  {
    a[i].id <= b[j].id && (j > 0 ==> b[j - 1].id < a[i].id)
  }

  /** End j is paired with the last candidate among the first p starts, if there is one. */
  ghost predicate Row(a: seq<Pos>, b: seq<Pos>, couple: map<Pos, Pos>, p: int, j: int)
    requires 0 <= p <= |a| && 0 <= j < |b|
  {
    && (b[j] !in couple ==> forall i | 0 <= i < p :: !Candidate(a, b, i, j))
    && (b[j] in couple ==> exists i :: 0 <= i < p && Candidate(a, b, i, j) && couple[b[j]] == a[i]
                                       && (i + 1 < p ==> b[j].id < a[i + 1].id))
  }

  ghost predicate PointersOk(a: seq<Pos>, b: seq<Pos>, couple: map<Pos, Pos>, p: int, q: int) {
    && 0 <= p <= |a| && 0 <= q <= |b|
    && (q > 0 && p < |a| ==> b[q - 1].id < a[p].id)
    && (p > 0 && q < |b| ==> a[p - 1].id <= b[q].id)
    && (forall j | 0 <= j < |b| && j <= q :: Row(a, b, couple, p, j))
    && (forall e <- couple :: exists j :: 0 <= j <= q && j < |b| && b[j] == e)
  }

  method GetSpan(startIds: seq<Pos>, endIds: seq<Pos>) returns (result: set<(Pos, Pos)>)
    requires DistinctIds(startIds) && DistinctIds(endIds)
    ensures forall s, e :: (s, e) in result <==> IsSpan(SetOf(startIds), SetOf(endIds), s, e)
  {
    var a := SortById(startIds);
    var b := SortById(endIds);
    var p, q := 0, 0;
    var couple: map<Pos, Pos> := map[];
    while p < |a| && q < |b|
      invariant PointersOk(a, b, couple, p, q)
      decreases |a| + |b| - p - q
    {
      if a[p].id == b[q].id {
        PairKeeps(a, b, couple, p, q);
        couple := couple[b[q] := a[p]];
        EqualKeeps(a, b, couple, p + 1, q);
        p := p + 1;
        q := q + 1;
      } else if a[p].id < b[q].id {
        PairKeeps(a, b, couple, p, q);
        couple := couple[b[q] := a[p]];
        p := p + 1;
      } else {
        SkipKeeps(a, b, couple, p, q);
        q := q + 1;
      }
    }
    result := set e | e in couple :: (couple[e], e);
    forall s, e ensures (s, e) in result <==> IsSpan(SetOf(a), SetOf(b), s, e) {
      PairsAreSpans(a, b, couple, p, q, s, e);
    }
  }

  /** Rows before q cannot change any more when later starts arrive. */
  lemma RowGrows(a: seq<Pos>, b: seq<Pos>, couple: map<Pos, Pos>, p: int, j: int)
    requires Ascending(a) && Ascending(b) && 0 <= p < |a| && 0 <= j < |b|
    requires Row(a, b, couple, p, j) && b[j].id < a[p].id
    ensures Row(a, b, couple, p + 1, j)
  {
    if b[j] in couple {
      var i :| 0 <= i < p && Candidate(a, b, i, j) && couple[b[j]] == a[i] && (i + 1 < p ==> b[j].id < a[i + 1].id);
      assert i + 1 < p + 1 ==> b[j].id < a[i + 1].id;
    }
  }

  lemma RowIgnores(a: seq<Pos>, b: seq<Pos>, couple: map<Pos, Pos>, p: int, j: int, e: Pos, s: Pos)
    requires 0 <= p <= |a| && 0 <= j < |b| && b[j] != e && Row(a, b, couple, p, j)
    ensures Row(a, b, couple[e := s], p, j)
  {
  }

  lemma PairKeeps(a: seq<Pos>, b: seq<Pos>, couple: map<Pos, Pos>, p: int, q: int)
    requires Ascending(a) && Ascending(b) && PointersOk(a, b, couple, p, q) && p < |a| && q < |b|
    requires a[p].id <= b[q].id
    ensures PointersOk(a, b, couple[b[q] := a[p]], p + 1, q)
  {
    var couple', p' := couple[b[q] := a[p]], p + 1;
    forall j | 0 <= j <= q ensures Row(a, b, couple', p', j) {
      if j < q {
        assert b[j].id <= b[q - 1].id;
        RowGrows(a, b, couple, p, j);
        RowIgnores(a, b, couple, p + 1, j, b[q], a[p]);
      } else {
        assert Candidate(a, b, p, q);
      }
    }
    forall e <- couple' ensures exists j :: 0 <= j <= q && j < |b| && b[j] == e {
      if e == b[q] {
        assert b[q] == e;
      }
    }
  }

  lemma EqualKeeps(a: seq<Pos>, b: seq<Pos>, couple: map<Pos, Pos>, p: int, q: int)
    requires Ascending(a) && Ascending(b) && PointersOk(a, b, couple, p, q) && 0 < p && q < |b|
    requires a[p - 1].id == b[q].id
    ensures PointersOk(a, b, couple, p, q + 1)
  {
    NextRow(a, b, couple, p, q);
  }

  lemma SkipKeeps(a: seq<Pos>, b: seq<Pos>, couple: map<Pos, Pos>, p: int, q: int)
    requires Ascending(a) && Ascending(b) && PointersOk(a, b, couple, p, q) && p < |a| && q < |b|
    requires b[q].id < a[p].id
    ensures PointersOk(a, b, couple, p, q + 1)
  {
    NextRow(a, b, couple, p, q);
  }

  /** The next end has no candidate among the starts passed so far. */
  lemma NextRow(a: seq<Pos>, b: seq<Pos>, couple: map<Pos, Pos>, p: int, q: int)
    requires Ascending(a) && Ascending(b) && PointersOk(a, b, couple, p, q) && q < |b|
    ensures forall j | 0 <= j < |b| && j <= q + 1 :: Row(a, b, couple, p, j)
    ensures forall e <- couple :: exists j :: 0 <= j <= q + 1 && j < |b| && b[j] == e
  {
    if q + 1 < |b| {
      var q' := q + 1;
      forall i | 0 <= i < p ensures !Candidate(a, b, i, q') {
        assert a[i].id <= a[p - 1].id;
      }
      assert forall j | 0 <= j <= q :: b[j].id < b[q'].id;
      assert b[q'] !in couple;
    }
  }

  /** After the loop the pairs are exactly the spans. */
  lemma PairsAreSpans(a: seq<Pos>, b: seq<Pos>, couple: map<Pos, Pos>, p: int, q: int, s: Pos, e: Pos)
    requires Ascending(a) && Ascending(b) && PointersOk(a, b, couple, p, q) && (p == |a| || q == |b|)
    ensures e in couple && couple[e] == s <==> IsSpan(SetOf(a), SetOf(b), s, e)
  {
    if e in couple && couple[e] == s {
      var j :| 0 <= j <= q && j < |b| && b[j] == e;
      PairIsSpan(a, b, couple, p, q, j);
    }
    if IsSpan(SetOf(a), SetOf(b), s, e) {
      var i :| 0 <= i < |a| && a[i] == s;
      var j :| 0 <= j < |b| && b[j] == e;
      SpanIsPair(a, b, couple, p, q, i, j);
    }
  }

  lemma PairIsSpan(a: seq<Pos>, b: seq<Pos>, couple: map<Pos, Pos>, p: int, q: int, j: int)
    requires Ascending(a) && Ascending(b) && PointersOk(a, b, couple, p, q) && (p == |a| || q == |b|)
    requires 0 <= j <= q && j < |b| && b[j] in couple
    ensures IsSpan(SetOf(a), SetOf(b), couple[b[j]], b[j])
  {
    assert Row(a, b, couple, p, j);
    var i :| 0 <= i < p && Candidate(a, b, i, j) && couple[b[j]] == a[i] && (i + 1 < p ==> b[j].id < a[i + 1].id);
    forall x <- SetOf(a) ensures !(a[i].id < x.id <= b[j].id) {
      var k :| 0 <= k < |a| && a[k] == x;
      if i < k {
        if i + 1 < p {
          assert a[i + 1].id <= a[k].id;
        } else {
          assert p < |a| && a[p].id <= a[k].id && b[j].id <= b[q - 1].id;
        }
      }
    }
    forall y <- SetOf(b) ensures !(a[i].id <= y.id < b[j].id) {
      var k :| 0 <= k < |b| && b[k] == y;
      if k < j {
        assert b[k].id <= b[j - 1].id;
      }
    }
  }

  lemma SpanIsPair(a: seq<Pos>, b: seq<Pos>, couple: map<Pos, Pos>, p: int, q: int, i: int, j: int)
    requires Ascending(a) && Ascending(b) && PointersOk(a, b, couple, p, q) && (p == |a| || q == |b|)
    requires 0 <= i < |a| && 0 <= j < |b| && IsSpan(SetOf(a), SetOf(b), a[i], b[j])
    ensures b[j] in couple && couple[b[j]] == a[i]
  {
    assert Candidate(a, b, i, j) by {
      if j > 0 {
        assert b[j - 1] in SetOf(b);
      }
    }
    SpanInReach(a, b, couple, p, q, i, j);
    assert Row(a, b, couple, p, j);
    var k :| 0 <= k < p && Candidate(a, b, k, j) && couple[b[j]] == a[k] && (k + 1 < p ==> b[j].id < a[k + 1].id);
    assert a[k] in SetOf(a);
    assert forall x | k < x < |a| :: a[k + 1].id <= a[x].id;
    assert k == i;
  }

  /** Both pointers got past a span. */
  lemma SpanInReach(a: seq<Pos>, b: seq<Pos>, couple: map<Pos, Pos>, p: int, q: int, i: int, j: int)
    requires Ascending(a) && Ascending(b) && PointersOk(a, b, couple, p, q) && (p == |a| || q == |b|)
    requires 0 <= i < |a| && 0 <= j < |b| && Candidate(a, b, i, j)
    ensures i < p && j <= q
  {
    assert forall x | p <= x < |a| :: a[p].id <= a[x].id;
    assert forall y | 0 <= y < q :: b[y].id <= b[q - 1].id;
    assert i < p;
    assert a[i].id <= a[p - 1].id;
    assert forall y | q <= y < |b| :: b[q].id <= b[y].id;
  }
}
