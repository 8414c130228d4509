/** The Bloom filter over a Redis bitmap: double hashing, single and pipelined access. */
module Bloom {
  import opened RedisReply

  /** Two hash functions, the bitmap's size and the number of bits per element. */
  datatype Config = Config(h1: string -> nat, h2: string -> nat, size: nat, count: nat)

  predicate Valid(c: Config) { c.size > 0 }

  /** The i-th position of an element. */
  function Position(c: Config, e: string, i: nat): nat
    requires Valid(c)
  {
    (c.h1(e) + i * c.h2(e)) % c.size
  }

  function Positions(c: Config, e: string): (r: seq<nat>)
    requires Valid(c)
    ensures |r| == c.count && forall i | 0 <= i < |r| :: r[i] == Position(c, e, i) < c.size
  {
    seq(c.count, i requires 0 <= i => Position(c, e, i))
  }

  function Marked(c: Config, bits: set<nat>, e: string): set<nat>
    requires Valid(c)
  {
    bits + set p | p in Positions(c, e)
  }

  predicate Present(c: Config, bits: set<nat>, e: string)
    requires Valid(c)
  {
    forall i | 0 <= i < c.count :: Position(c, e, i) in bits
  }

  /** Adding one element after the other. */
  function MarkedAll(c: Config, bits: set<nat>, es: seq<string>): set<nat>
    requires Valid(c)
  {
    if es == [] then bits else Marked(c, MarkedAll(c, bits, es[..|es| - 1]), es[|es| - 1])
  }

  /** Bits that some element of `added` accounts for. */
  predicate Accounted(c: Config, added: set<string>, p: nat)
    requires Valid(c)
  {
    exists e :: e in added && p in Positions(c, e)
  }

  /** The bitmap is exactly the positions of the added elements. */
  ghost predicate Exact(c: Config, bits: set<nat>, added: set<string>)
    requires Valid(c)
  {
    forall p :: p in bits <==> Accounted(c, added, p)
  }

  lemma MarkedExact(c: Config, bits: set<nat>, added: set<string>, e: string)
    requires Valid(c) && Exact(c, bits, added)
    ensures Exact(c, Marked(c, bits, e), added + {e})
  {
    forall p ensures p in Marked(c, bits, e) <==> Accounted(c, added + {e}, p) {
      assert p in bits <==> Accounted(c, added, p);
      if p in Positions(c, e) {
        assert e in added + {e};
      }
      if Accounted(c, added, p) {
        var x :| x in added && p in Positions(c, x);
        assert x in added + {e};
      }
    }
  }

  lemma {:induction false} MarkedAllExact(c: Config, bits: set<nat>, added: set<string>, es: seq<string>)
    requires Valid(c) && Exact(c, bits, added)
    ensures Exact(c, MarkedAll(c, bits, es), added + set e | e in es)
  {
    if es == [] {
      assert added + (set e | e in es) == added;
    } else {
      var n := |es| - 1;
      MarkedAllExact(c, bits, added, es[..n]);
      MarkedExact(c, MarkedAll(c, bits, es[..n]), added + (set e | e in es[..n]), es[n]);
      assert es == es[..n] + [es[n]];
      assert added + (set e | e in es) == added + (set e | e in es[..n]) + {es[n]};
    }
  }

  /** No false negatives, and the false positives are exactly the elements all of whose
      positions some added elements share. */
  lemma PresentIff(c: Config, bits: set<nat>, added: set<string>, e: string)
    requires Valid(c) && Exact(c, bits, added)
    ensures e in added ==> Present(c, bits, e)
    ensures Present(c, bits, e) <==> forall i | 0 <= i < c.count :: Accounted(c, added, Position(c, e, i))
  {
    forall i | 0 <= i < c.count
      ensures Position(c, e, i) in bits <==> Accounted(c, added, Position(c, e, i))
      ensures e in added ==> Position(c, e, i) in bits
    {
      assert Positions(c, e)[i] in Positions(c, e);
    }
  }

  lemma MoreBitsMoreElements(c: Config, bits: set<nat>, bits': set<nat>, e: string)
    requires Valid(c) && Present(c, bits, e) && bits <= bits'
    ensures Present(c, bits', e)
  {
    forall i | 0 <= i < c.count ensures Position(c, e, i) in bits' {
      assert Position(c, e, i) in bits;
    }
  }

  // ---------- The filter ----------

  /** `reply(n)` is how the n-th round trip to Redis ends; a failed one raises. */
  class RedisBloomFilter {
    const c: Config
    const reply: nat -> Reply
    var bits: set<nat>
    var calls: nat
    ghost var added: set<string>

    constructor (c: Config, reply: nat -> Reply)
      requires Valid(c)
      ensures this.c == c && this.reply == reply && bits == {} && added == {} && Sound()
    {
      this.c, this.reply := c, reply;
      bits, calls, added := {}, 0, {};
    }

    /** Every element whose addition was reported as done tests present; if nothing fails
        the bitmap holds nothing else. */
    ghost predicate Sound()
      reads this
    {
      Valid(c) && (forall e <- added :: Present(c, bits, e)) && (NeverFails() ==> Exact(c, bits, added))
    }

    ghost predicate NeverFails() { forall n: nat :: reply(n).Answered? }

    method GetPositions(e: string) returns (positions: seq<nat>)
      requires Valid(c)
      ensures positions == Positions(c, e)
      ensures |positions| == c.count
      ensures forall i | 0 <= i < c.count :: positions[i] == (c.h1(e) + i * c.h2(e)) % c.size
    {
      var a, b := c.h1(e), c.h2(e);
      positions := [];
      for i := 0 to c.count
        invariant |positions| == i && forall j | 0 <= j < i :: positions[j] == Position(c, e, j)
      {
        positions := positions + [(a + i * b) % c.size];
      }
    }

    method Add(e: string) returns (ok: bool)
      requires Sound()
      modifies this
      ensures Sound() && added == (if ok then old(added) + {e} else old(added))
      ensures old(bits) <= bits <= Marked(c, old(bits), e)
      ensures ok ==> bits == Marked(c, old(bits), e)
      ensures NeverFails() ==> ok
    {
      var positions := GetPositions(e);
      for i := 0 to |positions|
        invariant old(bits) <= bits <= Marked(c, old(bits), e) && added == old(added)
        invariant forall j | 0 <= j < i :: positions[j] in bits
      {
        calls := calls + 1;
        if !reply(calls).FailedLost? {
          bits := bits + {positions[i]};
        }
        if !reply(calls).Answered? {
          KeepsPresent(old(bits), old(added));
          return false;
        }
      }
      KeepsPresent(old(bits), old(added));
      if NeverFails() {
        MarkedExact(c, old(bits), old(added), e);
      }
      added := added + {e};
      ok := true;
    }

    lemma KeepsPresent(before: set<nat>, es: set<string>)
      requires Valid(c) && before <= bits && forall e <- es :: Present(c, before, e)
      ensures forall e <- es :: Present(c, bits, e)
    {
      forall e <- es ensures Present(c, bits, e) {
        MoreBitsMoreElements(c, before, bits, e);
      }
    }

    /** One pipeline with all bits of all elements: the bitmap ends as if the elements had
        been added one by one. */
    method AddBatch(es: seq<string>) returns (ok: bool)
      requires Sound()
      modifies this
      ensures Sound() && ok == reply(calls).Answered?
      ensures added == (if ok then old(added) + (set e | e in es) else old(added))
      ensures bits == (if reply(calls).FailedLost? then old(bits) else MarkedAll(c, old(bits), es))
    {
      var pipe := [];
      for x := 0 to |es|
        invariant Sound() && bits == old(bits) && added == old(added)
        invariant bits + (set p | p in pipe) == MarkedAll(c, bits, es[..x])
      {
        var positions := GetPositions(es[x]);
        assert es[..x + 1][..x] == es[..x];
        assert bits + (set p | p in pipe + positions) == bits + (set p | p in pipe) + set p | p in positions;
        pipe := pipe + positions;
      }
      assert es[..|es|] == es;
      calls := calls + 1;
      if !reply(calls).FailedLost? {
        bits := bits + set p | p in pipe;
      }
      BatchPresent(old(bits), es);
      if !reply(calls).Answered? {
        KeepsPresent(old(bits), old(added));
        return false;
      }
      if NeverFails() {
        MarkedAllExact(c, old(bits), old(added), es);
      }
      KeepsPresent(old(bits), old(added));
      added := added + set e | e in es;
      ok := true;
    }

    lemma BatchPresent(before: set<nat>, es: seq<string>)
      requires Valid(c)
      ensures before <= MarkedAll(c, before, es)
      ensures forall e <- es :: Present(c, MarkedAll(c, before, es), e)
      decreases |es|
    {
      if es != [] {
        var n := |es| - 1;
        BatchPresent(before, es[..n]);
        var inner := MarkedAll(c, before, es[..n]);
        forall e <- es ensures Present(c, MarkedAll(c, before, es), e) {
          if e == es[n] {
            assert forall i | 0 <= i < c.count :: Positions(c, e)[i] in Positions(c, e);
          } else {
            assert es == es[..n] + [es[n]];
            MoreBitsMoreElements(c, inner, Marked(c, inner, es[n]), e);
          }
        }
      }
    }

    /** Present as far as the bits tell; a failing server counts as "maybe". */
    method Exists(e: string) returns (maybe: bool)
      requires Sound()
      modifies this`calls
      ensures e in added ==> maybe
      ensures NeverFails() ==> maybe == Present(c, bits, e)
      ensures !maybe ==> !Present(c, bits, e)
    {
      var positions := GetPositions(e);
      for i := 0 to |positions|
        invariant forall j | 0 <= j < i :: positions[j] in bits
      {
        calls := calls + 1;
        if !reply(calls).Answered? {
          return true;
        }
        if positions[i] !in bits {
          assert !Present(c, bits, e);
          return false;
        }
      }
      maybe := true;
    }

    /** One pipeline with all bits of all elements, its flat reply cut into groups of
        `count`: the same as asking for the elements one by one. */
    method ExistsBatch(es: seq<string>) returns (output: seq<bool>)
      requires Sound()
      modifies this`calls
      ensures |output| == |es|
      ensures forall x | 0 <= x < |es| :: es[x] in added ==> output[x]
      ensures reply(calls).Answered? ==> forall x | 0 <= x < |es| :: output[x] == Present(c, bits, es[x])
    {
      var pipe := FlatPositions(es);
      calls := calls + 1;
      if !reply(calls).Answered? {
        output := seq(|es|, _ => true);
        return;
      }
      var bitmap := bits;
      var results := seq(|pipe|, i requires 0 <= i < |pipe| => pipe[i] in bitmap);
      output := [];
      for x := 0 to |es|
        invariant |output| == x && forall y | 0 <= y < x :: output[y] == Present(c, bitmap, es[y])
      {
        GroupInside(|es|, x, c.count);
        GroupBits(c, pipe, results, bitmap, es[x], x);
        var start := x * c.count;
        var all := AllOnes(results[start..start + c.count]);
        output := output + [all];
      }
    }

    /** The positions of all elements, one group after the other. */
    method FlatPositions(es: seq<string>) returns (pipe: seq<nat>)
      requires Valid(c)
      ensures |pipe| == |es| * c.count
      ensures forall y | 0 <= y < |es| :: Group(pipe, y, c.count) == Positions(c, es[y])
    {
      pipe := [];
      for x := 0 to |es|
        invariant |pipe| == x * c.count
        invariant forall y | 0 <= y < x :: Group(pipe, y, c.count) == Positions(c, es[y])
      {
        var positions := GetPositions(es[x]);
        GroupAppend(pipe, positions, x, c.count);
        pipe := pipe + positions;
      }
    }
  }

  predicate AllSet(group: seq<bool>) {
    forall i | 0 <= i < |group| :: group[i]
  }

  method AllOnes(group: seq<bool>) returns (all: bool)
    ensures all <==> AllSet(group)
  {
    all := true;
    for i := 0 to |group|
      invariant all <==> forall j | 0 <= j < i :: group[j]
    {
      all := all && group[i];
    }
  }

  /** The y-th group of n entries of a flat list. */
  function Group(pipe: seq<nat>, y: nat, n: nat): seq<nat> {
    if y * n + n <= |pipe| then pipe[y * n..y * n + n] else []
  }

  lemma GroupInside(total: nat, x: nat, n: nat)
    requires x < total
    ensures x * n + n <= total * n
  {
    assert (x + 1) * n <= total * n;
  }

  /** Group x of the reply tells whether element x is present. */
  lemma GroupBits(c: Config, pipe: seq<nat>, results: seq<bool>, bits: set<nat>, e: string, x: nat)
    requires Valid(c) && |results| == |pipe| && x * c.count + c.count <= |pipe|
    requires forall i | 0 <= i < |pipe| :: results[i] == (pipe[i] in bits)
    requires Group(pipe, x, c.count) == Positions(c, e)
    ensures AllSet(results[x * c.count..x * c.count + c.count]) <==> Present(c, bits, e)
  {
    var start := x * c.count;
    var group := results[start..start + c.count];
    forall i | 0 <= i < c.count ensures group[i] == (Position(c, e, i) in bits) {
      assert pipe[start + i] == Group(pipe, x, c.count)[i] == Positions(c, e)[i];
    }
  }

  lemma GroupAppend(pipe: seq<nat>, more: seq<nat>, x: nat, n: nat)
    requires |pipe| == x * n && |more| == n
    ensures |pipe + more| == (x + 1) * n
    ensures Group(pipe + more, x, n) == more
    ensures forall y | 0 <= y < x :: Group(pipe + more, y, n) == Group(pipe, y, n)
  {
    forall y | 0 <= y < x ensures Group(pipe + more, y, n) == Group(pipe, y, n) {
      GroupInside(x, y, n);
    }
  }
}
