/** The stock scripts: each is one atomic step on integer keys, a missing key counting as 0. */
module Stock {
  import opened RedisReply

  /** Stock keys and the per-user purchase counters are different keys. */
  datatype Key = StockOf(item: string) | BoughtBy(user: string)

  type Store = map<Key, int>

  datatype Call =
    | Deduct(item: string, amount: int)
    | Purchase(user: string, item: string, limit: int, count: int)

  datatype Result = Success | Refused | OverLimit | OutOfStock | Error

  function Get(s: Store, k: Key): int { if k in s then s[k] else 0 }

  function Add(s: Store, k: Key, d: int): Store { s[k := Get(s, k) + d] }

  /** The result of a call, and what the store holds after it. */
  function Answer(s: Store, c: Call): Result {
    match c
    case Deduct(item, amount) => if Get(s, StockOf(item)) >= amount then Success else Refused
    case Purchase(user, item, limit, count) =>
      if Get(s, BoughtBy(user)) + count > limit then OverLimit
      else if Get(s, StockOf(item)) < count then OutOfStock
      else Success
  }

  function Apply(s: Store, c: Call): Store {
    if !Answer(s, c).Success? then s else
    match c
    case Deduct(item, amount) => Add(s, StockOf(item), -amount)
    case Purchase(user, item, _, count) => Add(Add(s, BoughtBy(user), count), StockOf(item), -count)
  }

  function Run(s: Store, calls: seq<Call>): Store
    decreases |calls|
  {
    if calls == [] then s else Run(Apply(s, calls[0]), calls[1..])
  }

  /** What the deductions of a run took out. */
  function Deducted(s: Store, calls: seq<Call>): int
    decreases |calls|
  {
    if calls == [] then 0
    else (if calls[0].Deduct? && Answer(s, calls[0]).Success? then calls[0].amount else 0)
         + Deducted(Apply(s, calls[0]), calls[1..])
  }

  // ---------- Conservation ----------

  /** All stocks and all purchase counters together. */
  ghost function Total(s: Store): (r: int)
    ensures s == map[] ==> r == 0
    decreases |s|
  {
    if s == map[] then 0 else
    var k :| k in s;
    assert |s - {k}| < |s| by {
      assert s.Keys == (s - {k}).Keys + {k};
    }
    s[k] + Total(s - {k})
  }

  /** Any key can be counted first. */
  lemma {:induction false} TotalWithout(s: Store, k: Key)
    requires k in s
    ensures Total(s) == s[k] + Total(s - {k})
    decreases |s|
  {
    var f :| f in s && Total(s) == s[f] + Total(s - {f});
    if f != k {
      assert s.Keys == (s - {f}).Keys + {f} && s.Keys == (s - {k}).Keys + {k};
      TotalWithout(s - {f}, k);
      TotalWithout(s - {k}, f);
      assert s - {f} - {k} == s - {k} - {f};
    }
  }

  lemma TotalAdd(s: Store, k: Key, d: int)
    ensures Total(Add(s, k, d)) == Total(s) + d
  {
    var s' := Add(s, k, d);
    TotalWithout(s', k);
    assert s' - {k} == s - {k};
    if k in s {
      TotalWithout(s, k);
    } else {
      assert s - {k} == s;
    }
  }

  /** Conservation over every run, for any amounts: what leaves a stock is in some user's
      counter or was deducted. */
  lemma {:induction false} Conserved(s: Store, calls: seq<Call>)
    ensures Total(Run(s, calls)) + Deducted(s, calls) == Total(s)
    decreases |calls|
  {
    if calls != [] {
      var c := calls[0];
      if Answer(s, c).Success? {
        match c
        case Deduct(item, amount) => TotalAdd(s, StockOf(item), -amount);
        case Purchase(user, item, _, count) =>
          TotalAdd(s, BoughtBy(user), count);
          TotalAdd(Add(s, BoughtBy(user), count), StockOf(item), -count);
      }
      Conserved(Apply(s, c), calls[1..]);
    }
  }

  // ---------- No overselling, no purchase over the limit ----------

  ghost predicate NoNegativeStock(s: Store) {
    forall item :: Get(s, StockOf(item)) >= 0
  }

  /** No stock ever goes negative, whatever the amounts. */
  lemma {:induction false} NeverOversold(s: Store, calls: seq<Call>)
    requires NoNegativeStock(s)
    ensures NoNegativeStock(Run(s, calls))
    decreases |calls|
  {
    if calls != [] {
      forall item ensures Get(Apply(s, calls[0]), StockOf(item)) >= 0 {
        assert Get(s, StockOf(item)) >= 0;
      }
      NeverOversold(Apply(s, calls[0]), calls[1..]);
    }
  }

  /** All purchases of this user are made under limits of at most `limit`. */
  predicate LimitedTo(calls: seq<Call>, user: string, limit: int) {
    forall i | 0 <= i < |calls| && calls[i].Purchase? && calls[i].user == user :: calls[i].limit <= limit
  }

  /** No user ever exceeds a constant limit. The counter is shared by all items. */
  lemma {:induction false} NeverOverLimit(s: Store, calls: seq<Call>, user: string, limit: int)
    requires Get(s, BoughtBy(user)) <= limit && LimitedTo(calls, user, limit)
    ensures Get(Run(s, calls), BoughtBy(user)) <= limit
    decreases |calls|
  {
    if calls != [] {
      NeverOverLimit(Apply(s, calls[0]), calls[1..], user, limit);
    }
  }

  // ---------- The two operations ----------

  class Counters {
    var values: Store

    constructor (values: Store)
      ensures this.values == values
    {
      this.values := values;
    }

    /** False means that it was not deducted or that the answer was lost. */
    method AtomicDeduct(item: string, amount: int, reply: Reply) returns (ok: bool)
      modifies this
      ensures ok <==> reply.Answered? && Get(old(values), StockOf(item)) >= amount
      ensures !reply.FailedLost? ==>
                var stock := if StockOf(item) in old(values) then old(values)[StockOf(item)] else 0;
                values == if stock >= amount then old(values)[StockOf(item) := stock - amount] else old(values)
      ensures values == if reply.FailedLost? then old(values) else Apply(old(values), Deduct(item, amount))
    {
      if reply.FailedLost? {
        return false;
      }
      var current := Get(values, StockOf(item));
      var enough := current >= amount;
      if enough {
        values := values[StockOf(item) := current - amount];
      }
      ok := enough && reply.Answered?;
    }

    method AtomicCheckAndPurchase(user: string, item: string, limit: int, count: int, reply: Reply)
      returns (result: Result)
      modifies this
      ensures !reply.Answered? ==> result == Error
      ensures reply.Answered? ==>
                var bought := if BoughtBy(user) in old(values) then old(values)[BoughtBy(user)] else 0;
                var stock := if StockOf(item) in old(values) then old(values)[StockOf(item)] else 0;
                if bought + count > limit then result == OverLimit && values == old(values)
                else if stock < count then result == OutOfStock && values == old(values)
                else && result == Success
                     && values == old(values)[BoughtBy(user) := bought + count][StockOf(item) := stock - count]
      ensures values
           == if reply.FailedLost? then old(values) else Apply(old(values), Purchase(user, item, limit, count))
    {
      if reply.FailedLost? {
        return Error;
      }
      result := PurchaseScript(user, item, limit, count);
      if !reply.Answered? {
        result := Error;
      }
    }

    method PurchaseScript(user: string, item: string, limit: int, count: int) returns (result: Result)
      modifies this
      ensures result == Answer(old(values), Purchase(user, item, limit, count))
      ensures values == Apply(old(values), Purchase(user, item, limit, count))
    {
      var currentBought := Get(values, BoughtBy(user));
      var currentStock := Get(values, StockOf(item));
      if currentBought + count > limit {
        return OverLimit;
      }
      if currentStock < count {
        return OutOfStock;
      }
      values := values[BoughtBy(user) := currentBought + count];
      values := values[StockOf(item) := currentStock - count];
      result := Success;
    }
  }
}
