/** The token bucket rate limiter (include/coact/policy.hpp). */
module TokenBucket {
  const TWO_64: nat := 0x1_0000_0000_0000_0000

  /** Values of a 64-bit counter. */
  type Word = n: int | 0 <= n < 0x1_0000_0000_0000_0000

  datatype Rule = Rule(capacity: Word, rate: Word, interval: Word, enabled: bool)

  datatype Bucket = Bucket(tokens: Word, last: Word)

  predicate Within(rule: Rule, b: Bucket) {
    b.tokens <= rule.capacity
  }

  /** What `refill` adds: the product of whole intervals and rate, in 64 bits. */
  function Gain(rule: Rule, elapsed: Word): Word
    requires rule.interval > 0
  {
    ((elapsed / rule.interval) * rule.rate) % TWO_64
  }

  /** The bucket refilled up to `now`; only a whole interval moves its clock. */
  function Refilled(rule: Rule, b: Bucket, now: Word): Bucket
    requires Within(rule, b)
  {
    if rule.interval == 0 || now <= b.last || (now - b.last) / rule.interval == 0 then b
    else
      var gain := Gain(rule, now - b.last);
      Bucket(if gain >= rule.capacity - b.tokens then rule.capacity else b.tokens + gain, now)
  }

  /** One evaluation: whether it is admitted, and the bucket afterwards. */
  predicate Admits(rule: Rule, b: Bucket, now: Word)
    requires Within(rule, b)
  {
    !rule.enabled || Refilled(rule, b, now).tokens > 0
  }

  function Acquired(rule: Rule, b: Bucket, now: Word): (c: Bucket)
    requires Within(rule, b)
    ensures Within(rule, c)
  {
    if !rule.enabled then b
    else
      var r := Refilled(rule, b, now);
      if r.tokens > 0 then r.(tokens := r.tokens - 1) else r
  }

  /** A sequence of evaluations at the given times, in any order of time. */
  function After(rule: Rule, b: Bucket, times: seq<Word>): (c: Bucket)
    requires Within(rule, b)
    ensures Within(rule, c)
    decreases |times|
  {
    if times == [] then b else After(rule, Acquired(rule, b, times[0]), times[1..])
  }

  function Admissions(rule: Rule, b: Bucket, times: seq<Word>): nat
    requires Within(rule, b)
    decreases |times|
  {
    if times == [] then 0
    else (if Admits(rule, b, times[0]) then 1 else 0) + Admissions(rule, Acquired(rule, b, times[0]), times[1..])
  }

  // ---- the bound ------------------------------------------------------------------------

  lemma QuotientAtLeast(x: int, d: int, k: int)
    requires d > 0 && d * k <= x
    ensures k <= x / d
  {
    var q, r := x / d, x % d;
    assert x == d * q + r;
    assert d * (k - q) <= r;
    AtLeastDivisor(d, k - q);
  }

  lemma AtLeastDivisor(d: int, k: int)
    requires d > 0
    ensures k >= 1 ==> d * k >= d
  {
  }

  /** Rounding down twice gives no more than rounding down once. */
  lemma QuotientsAdd(a: nat, b: nat, d: nat)
    requires d > 0
    ensures a / d + b / d <= (a + b) / d
  {
    var qa, qb := a / d, b / d;
    assert d * qa <= a && d * qb <= b;
    assert d * (qa + qb) == d * qa + d * qb;
    QuotientAtLeast(a + b, d, qa + qb);
  }

  lemma RemainderAtMost(x: nat, d: nat)
    requires d > 0
    ensures x % d <= x
  {
  }

  /** The tokens that time can have produced since `last` was `since`. */
  function Produced(rule: Rule, since: int, last: int): int
    requires rule.interval > 0 && since <= last
  {
    rule.rate * ((last - since) / rule.interval)
  }

  lemma ProductMod(x: nat, y: nat)
    ensures (x * y) % TWO_64 <= y * x
  {
    assert x * y >= 0;
    RemainderAtMost(x * y, TWO_64);
  }

  lemma GainBound(rule: Rule, elapsed: Word)
    requires rule.interval > 0
    ensures Gain(rule, elapsed) <= rule.rate * (elapsed / rule.interval)
  {
    ProductMod(elapsed / rule.interval, rule.rate);
  }

  lemma NothingProduced(rule: Rule, last: int)
    requires rule.interval > 0
    ensures Produced(rule, last, last) == 0
  {
    assert (last - last) / rule.interval == 0;
  }

  lemma RefillBound(rule: Rule, b: Bucket, now: Word)
    requires Within(rule, b) && rule.interval > 0
    ensures var r := Refilled(rule, b, now);
            b.last <= r.last && r.tokens <= b.tokens + Produced(rule, b.last, r.last)
  {
    if now > b.last {
      GainBound(rule, now - b.last);
    }
    NothingProduced(rule, b.last);
  }

  lemma ProducedAdds(rule: Rule, a: int, b: int, c: int)
    requires rule.interval > 0 && a <= b <= c
    ensures Produced(rule, a, b) + Produced(rule, b, c) <= Produced(rule, a, c)
  {
    var x, y, z := (b - a) / rule.interval, (c - b) / rule.interval, (c - a) / rule.interval;
    QuotientsAdd(b - a, c - b, rule.interval);
    assert rule.rate * x + rule.rate * y == rule.rate * (x + y);
    Monotone(rule.rate, x + y, z);
  }

  lemma Monotone(r: nat, x: int, y: int)
    requires x <= y
    ensures r * x <= r * y
  {
  }

  /** Whatever the times, what is admitted and what is left never exceed what was there and what
      the moving clock has produced, even when the 64-bit product wraps. */
  lemma {:induction false} AdmissionsBound(rule: Rule, b: Bucket, times: seq<Word>)
    requires Within(rule, b) && rule.enabled && rule.interval > 0
    ensures var c := After(rule, b, times);
            && b.last <= c.last
            && Admissions(rule, b, times) + c.tokens <= b.tokens + Produced(rule, b.last, c.last)
    decreases |times|
  {
    if times == [] {
      NothingProduced(rule, b.last);
    } else {
      var d := Acquired(rule, b, times[0]);
      RefillBound(rule, b, times[0]);
      AdmissionsBound(rule, d, times[1..]);
      ProducedAdds(rule, b.last, d.last, After(rule, b, times).last);
    }
  }

  /** Between any two points of any run the admissions are at most the capacity plus the rate for
      every whole interval by which the bucket's clock has moved. */
  lemma BurstBound(rule: Rule, b: Bucket, before: seq<Word>, times: seq<Word>)
    requires Within(rule, b) && rule.enabled && rule.interval > 0
    ensures var from := After(rule, b, before);
            var end := After(rule, from, times);
            && from.last <= end.last
            && Admissions(rule, from, times) <= rule.capacity + rule.rate * ((end.last - from.last) / rule.interval)
  {
    AdmissionsBound(rule, After(rule, b, before), times);
  }

  /** Without a refill interval the bucket only ever empties. */
  lemma {:induction false} NoRefillBound(rule: Rule, b: Bucket, times: seq<Word>)
    requires Within(rule, b) && rule.enabled && rule.interval == 0
    ensures Admissions(rule, b, times) + After(rule, b, times).tokens == b.tokens
    decreases |times|
  {
    if times != [] {
      NoRefillBound(rule, Acquired(rule, b, times[0]), times[1..]);
    }
  }

  /** A refill whose product fits 64 bits and covers the room left fills the bucket; a smaller one
      adds exactly the product. */
  lemma RefillExact(rule: Rule, b: Bucket, now: Word)
    requires Within(rule, b) && rule.interval > 0 && b.last <= now
    requires rule.rate * ((now - b.last) / rule.interval) < TWO_64
    ensures var produced := rule.rate * ((now - b.last) / rule.interval);
            var r := Refilled(rule, b, now);
            && r.tokens == (if b.tokens + produced >= rule.capacity then rule.capacity else b.tokens + produced)
            && now - r.last < rule.interval
  {
    var added := (now - b.last) / rule.interval;
    assert added * rule.rate == rule.rate * added;
    SmallRemainder(rule.rate * added);
    if added == 0 {
      SmallQuotient(now - b.last, rule.interval);
    }
  }

  lemma SmallRemainder(x: int)
    requires 0 <= x < TWO_64
    ensures x % TWO_64 == x
  {
  }

  lemma SmallQuotient(x: nat, d: nat)
    requires d > 0 && x / d == 0
    ensures x < d
  {
  }

  class Limiter {
    var rule: Rule
    var tokens: Word
    var last: Word

    ghost predicate Valid()
      reads this
    {
      tokens <= rule.capacity
    }

    ghost function View(): Bucket
      reads this
    {
      Bucket(tokens, last)
    }

    constructor (r: Rule, now: Word)
      ensures Valid() && rule == r && View() == Bucket(r.capacity, now)
    {
      rule, tokens, last := r, r.capacity, now;
    }

    method Refill(now: Word)
      requires Valid()
      modifies this`tokens, this`last
      ensures Valid() && View() == Refilled(rule, old(View()), now)
    {
      if rule.interval == 0 || now <= last {
        return;
      }
      var elapsed: Word := now - last;
      var added := elapsed / rule.interval;
      if added == 0 {
        return;
      }
      last := now;
      var gain := (added * rule.rate) % TWO_64;
      var room := rule.capacity - tokens;
      if gain >= room {
        tokens := rule.capacity;
      } else {
        tokens := tokens + gain;
      }
    }

    method Acquire(now: Word) returns (ok: bool)
      requires Valid()
      modifies this`tokens, this`last
      ensures Valid() && View() == Acquired(rule, old(View()), now)
      ensures ok == Admits(rule, old(View()), now)
    {
      if !rule.enabled {
        return true;
      }
      Refill(now);
      if tokens > 0 {
        tokens := tokens - 1;
        return true;
      }
      return false;
    }
  }
}
