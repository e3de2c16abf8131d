/** Rate samplers and their short-circuiting combinations, counted exactly. */
module Sampling {
  import opened Bits

  // ---- one in n -------------------------------------------------------------

  /** How many of the k calls after the first c a one-in-n sampler takes. */
  function Taken(c: nat, n: nat, k: nat): nat
    requires n > 0
    decreases k
  {
    if k == 0 then 0 else Taken(c, n, k - 1) + (if (c + k) % n == 0 then 1 else 0)
  }

  /** One more call crosses a multiple of n exactly when it lands on one. */
  lemma NextQuotient(k: nat, n: nat)
    requires n > 0
    ensures (k + 1) / n == k / n + (if (k + 1) % n == 0 then 1 else 0)
  {
    var q, r := k / n, k % n;
    assert k == q * n + r;
    if r + 1 == n {
      assert k + 1 == (q + 1) * n + 0;
      DivModUnique(k + 1, n, q + 1, 0);
    } else {
      DivModUnique(k + 1, n, q, r + 1);
    }
  }

  lemma {:induction false} TakenExactly(c: nat, n: nat, k: nat)
    requires n > 0
    ensures Taken(c, n, k) == (c + k) / n - c / n
    decreases k
  {
    if k > 0 {
      TakenExactly(c, n, k - 1);
      NextQuotient(c + k - 1, n);
    }
  }

  lemma SumQuotient(c: nat, k: nat, n: nat)
    requires n > 0
    ensures k / n <= (c + k) / n - c / n <= k / n + (if k % n == 0 then 0 else 1)
  {
    var q, r, q', r' := c / n, c % n, k / n, k % n;
    assert c == q * n + r && k == q' * n + r';
    assert (q + q') * n == q * n + q' * n && (q + q' + 1) * n == (q + q') * n + n;
    if r + r' < n {
      DivModUnique(c + k, n, q + q', r + r');
    } else {
      DivModUnique(c + k, n, q + q' + 1, r + r' - n);
    }
  }

  /** From a fresh counter k calls take exactly floor(k/n); from any counter they take
      k/n rounded down or up. */
  lemma RateCount(c: nat, n: nat, k: nat)
    requires n > 0
    ensures Taken(0, n, k) == k / n
    ensures k / n <= Taken(c, n, k) <= k / n + (if k % n == 0 then 0 else 1)
  {
    TakenExactly(0, n, k);
    TakenExactly(c, n, k);
    SumQuotient(c, k, n);
  }

  /** The mask test on the powers of two and the remainder test otherwise. */
  function FastTest(count: nat, n: nat): bool
    requires n > 0
  {
    if BitAnd(n, n - 1) == 0 then BitAnd(count, n - 1) == 0 else count % n == 0
  }

  /** Both say whether n divides the count. */
  lemma FastTestIsRemainder(count: nat, n: nat)
    requires n > 0
    ensures FastTest(count, n) <==> count % n == 0
  {
    PowerTest(n);
    if IsPow2(n) {
      MaskIsMod(count, n);
    }
  }

  class RateSampler {
    const rate: nat
    var counter: nat

    constructor (n: int)
      ensures rate == (if n <= 0 then 1 else n) && counter == 0
    {
      rate := if n <= 0 then 1 else n;
      counter := 0;
    }

    method Sample() returns (take: bool)
      requires rate > 0
      modifies this
      ensures counter == old(counter) + 1
      ensures take <==> counter % rate == 0
    {
      counter := counter + 1;
      FastTestIsRemainder(counter, rate);
      if BitAnd(rate, rate - 1) == 0 {
        take := BitAnd(counter, rate - 1) == 0;
      } else {
        take := counter % rate == 0;
      }
    }
  }

  // ---- combinations ---------------------------------------------------------

  datatype Outcome = Outcome(take: bool, counters: seq<nat>)

  predicate Rates(rates: seq<nat>)
  {
    forall i | 0 <= i < |rates| :: rates[i] > 0
  }

  /** One call of an and-chain: it stops at the first sampler that refuses. */
  function AndStep(rates: seq<nat>, counters: seq<nat>): (o: Outcome)
    requires Rates(rates) && |rates| == |counters|
    ensures |o.counters| == |counters|
  {
    if rates == [] then Outcome(true, [])
    else
      var c := counters[0] + 1;
      if c % rates[0] != 0 then Outcome(false, [c] + counters[1..])
      else
        var rest := AndStep(rates[1..], counters[1..]);
        Outcome(rest.take, [c] + rest.counters)
  }

  /** One call of an or-chain: it stops at the first sampler that takes. */
  function OrStep(rates: seq<nat>, counters: seq<nat>): (o: Outcome)
    requires Rates(rates) && |rates| == |counters|
    ensures |o.counters| == |counters|
  {
    if rates == [] then Outcome(false, [])
    else
      var c := counters[0] + 1;
      if c % rates[0] == 0 then Outcome(true, [c] + counters[1..])
      else
        var rest := OrStep(rates[1..], counters[1..]);
        Outcome(rest.take, [c] + rest.counters)
  }

  datatype Mode = AndMode | OrMode

  function ChainStep(mode: Mode, rates: seq<nat>, counters: seq<nat>): (o: Outcome)
    requires Rates(rates) && |rates| == |counters|
    ensures |o.counters| == |counters|
  {
    if mode == AndMode then AndStep(rates, counters) else OrStep(rates, counters)
  }

  /** A combination without samplers takes everything, in either mode. */
  function MultiStep(mode: Mode, rates: seq<nat>, counters: seq<nat>): (o: Outcome)
    requires Rates(rates) && |rates| == |counters|
    ensures |o.counters| == |counters|
  {
    if rates == [] then Outcome(true, [])
    else ChainStep(mode, rates, counters)
  }

  /** Every call on it is taken. */
  lemma {:induction false} NoSamplersTakeAll(mode: Mode, k: nat)
    ensures Rates([]) && TakenCount(mode, [], k) == k
    decreases k
  {
    if k > 0 {
      NoSamplersTakeAll(mode, k - 1);
    }
  }

  function Zeros(n: nat): (z: seq<nat>)
    ensures |z| == n
  {
    if n == 0 then [] else [0] + Zeros(n - 1)
  }

  /** The counters after k calls of fresh samplers. */
  function CountersAfter(mode: Mode, rates: seq<nat>, k: nat): (c: seq<nat>)
    requires Rates(rates)
    ensures |c| == |rates|
    decreases k
  {
    if k == 0 then Zeros(|rates|) else MultiStep(mode, rates, CountersAfter(mode, rates, k - 1)).counters
  }

  /** Whether call k of fresh samplers is taken, counting from 1. */
  predicate Takes(mode: Mode, rates: seq<nat>, k: nat)
    requires Rates(rates) && k > 0
  {
    MultiStep(mode, rates, CountersAfter(mode, rates, k - 1)).take
  }

  function TakenCount(mode: Mode, rates: seq<nat>, k: nat): nat
    requires Rates(rates)
    decreases k
  {
    if k == 0 then 0 else TakenCount(mode, rates, k - 1) + (if Takes(mode, rates, k) then 1 else 0)
  }

  // ---- and-chains -----------------------------------------------------------

  function Product(rates: seq<nat>): (p: nat)
    requires Rates(rates)
    ensures p > 0
  {
    if rates == [] then 1 else Times(rates[0], Product(rates[1..]))
  }

  function Times(a: nat, b: nat): (p: nat)
    ensures a > 0 && b > 0 ==> p > 0
  {
    if a > 0 && b > 0 then
      MulStep(0, a, b);
      a * b
    else 0
  }

  /** Sampler i + 1 of an and-chain is called once for every call sampler i takes. */
  function AndCounters(rates: seq<nat>, k: nat): (c: seq<nat>)
    requires Rates(rates)
    ensures |c| == |rates|
  {
    if rates == [] then [] else [k] + AndCounters(rates[1..], k / rates[0])
  }

  /** n·p divides k exactly when n divides k and p divides k/n. */
  lemma ProductDivides(k: nat, n: nat, p: nat)
    requires n > 0 && p > 0
    ensures k % Times(n, p) == 0 <==> k % n == 0 && (k / n) % p == 0
  {
    var np := Times(n, p);
    if k % n == 0 && (k / n) % p == 0 {
      var q, t := k / n, k / n / p;
      assert k == n * q && q == p * t;
      MulAssociates(n, p, t);
      DivModUnique(k, np, t, 0);
    }
    if k % np == 0 {
      var t := k / np;
      assert k == np * t;
      MulAssociates(n, p, t);
      DivModUnique(k, n, p * t, 0);
      DivModUnique(p * t, p, t, 0);
    }
  }

  lemma MulAssociates(a: nat, b: nat, c: nat)
    requires a > 0 && b > 0
    ensures a * (b * c) == Times(a, b) * c == c * Times(a, b)
  {
  }

  lemma {:induction false} AndStepCounts(rates: seq<nat>, k: nat)
    requires Rates(rates)
    ensures AndStep(rates, AndCounters(rates, k)) == Outcome((k + 1) % Product(rates) == 0, AndCounters(rates, k + 1))
    decreases |rates|
  {
    if rates != [] {
      var n, rest := rates[0], rates[1..];
      NextQuotient(k, n);
      ProductDivides(k + 1, n, Product(rest));
      assert AndCounters(rates, k)[1..] == AndCounters(rest, k / n);
      if (k + 1) % n == 0 {
        AndStepCounts(rest, k / n);
      }
    }
  }

  lemma {:induction false} AndCountersStart(rates: seq<nat>)
    requires Rates(rates)
    ensures AndCounters(rates, 0) == Zeros(|rates|)
  {
    if rates != [] {
      assert 0 / rates[0] == 0;
      AndCountersStart(rates[1..]);
    }
  }

  lemma {:induction false} AndCountersAre(rates: seq<nat>, k: nat)
    requires Rates(rates)
    ensures CountersAfter(AndMode, rates, k) == AndCounters(rates, k)
    decreases k
  {
    if k == 0 {
      AndCountersStart(rates);
    } else {
      AndCountersAre(rates, k - 1);
      AndStepCounts(rates, k - 1);
    }
  }

  /** An and-chain takes call k exactly when the product of its rates divides k, so
      that k calls take floor(k / product): later counters only advance on calls that
      every earlier sampler took. */
  lemma {:induction false} AndChain(rates: seq<nat>, k: nat)
    requires Rates(rates)
    ensures k > 0 ==> (Takes(AndMode, rates, k) <==> k % Product(rates) == 0)
    ensures TakenCount(AndMode, rates, k) == k / Product(rates)
    decreases k
  {
    var p := Product(rates);
    if k == 0 {
      assert 0 / p == 0;
    } else {
      AndChain(rates, k - 1);
      AndCountersAre(rates, k - 1);
      AndStepCounts(rates, k - 1);
      NextQuotient(k - 1, p);
      assert rates == [] ==> k % p == 0;
    }
  }

  // ---- or-chains ------------------------------------------------------------

  lemma QuotientAtMost(k: nat, n: nat)
    requires n > 0
    ensures k / n <= k
  {
    var q := k / n;
    assert k == q * n + k % n;
    if n > 1 {
      MulStep(1, n, q);
    }
  }

  /** How many of k calls the first sampler leaves to the rest. */
  function Left(k: nat, n: nat): nat
    requires n > 0
  {
    QuotientAtMost(k, n);
    k - k / n
  }

  /** The counters of an or-chain: a later sampler sees the calls not yet taken. */
  function OrCounters(rates: seq<nat>, k: nat): (c: seq<nat>)
    requires Rates(rates)
    ensures |c| == |rates|
  {
    if rates == [] then [] else [k] + OrCounters(rates[1..], Left(k, rates[0]))
  }

  predicate OrTakes(rates: seq<nat>, k: nat)
    requires Rates(rates)
  {
    rates != [] && (k % rates[0] == 0 || OrTakes(rates[1..], Left(k, rates[0])))
  }

  /** k/N1 calls for the first sampler, and what the others make of the k - k/N1 left. */
  function OrCount(rates: seq<nat>, k: nat): nat
    requires Rates(rates)
  {
    if rates == [] then 0 else k / rates[0] + OrCount(rates[1..], Left(k, rates[0]))
  }

  lemma {:induction false} OrStepCounts(rates: seq<nat>, k: nat)
    requires Rates(rates)
    ensures OrStep(rates, OrCounters(rates, k)) == Outcome(OrTakes(rates, k + 1), OrCounters(rates, k + 1))
    ensures OrCount(rates, k + 1) == OrCount(rates, k) + (if OrTakes(rates, k + 1) then 1 else 0)
    decreases |rates|
  {
    if rates != [] {
      var n, rest := rates[0], rates[1..];
      NextQuotient(k, n);
      assert OrCounters(rates, k)[1..] == OrCounters(rest, Left(k, n));
      if (k + 1) % n != 0 {
        OrStepCounts(rest, Left(k, n));
      }
    }
  }

  lemma {:induction false} OrCountersStart(rates: seq<nat>)
    requires Rates(rates)
    ensures OrCounters(rates, 0) == Zeros(|rates|) && OrCount(rates, 0) == 0
  {
    if rates != [] {
      assert 0 / rates[0] == 0;
      OrCountersStart(rates[1..]);
    }
  }

  lemma {:induction false} OrCountersAre(rates: seq<nat>, k: nat)
    requires Rates(rates) && rates != []
    ensures CountersAfter(OrMode, rates, k) == OrCounters(rates, k)
    decreases k
  {
    if k == 0 {
      OrCountersStart(rates);
    } else {
      OrCountersAre(rates, k - 1);
      OrStepCounts(rates, k - 1);
    }
  }

  /** k calls of an or-chain take k/N1 of them, then (k - k/N1)/N2 of those left, and
      so on down the chain. */
  lemma {:induction false} OrChain(rates: seq<nat>, k: nat)
    requires Rates(rates) && rates != []
    ensures k > 0 ==> (Takes(OrMode, rates, k) <==> OrTakes(rates, k))
    ensures TakenCount(OrMode, rates, k) == OrCount(rates, k)
    decreases k
  {
    if k == 0 {
      OrCountersStart(rates);
    } else {
      OrChain(rates, k - 1);
      OrCountersAre(rates, k - 1);
      OrStepCounts(rates, k - 1);
    }
  }

  lemma OrOfTwo(n: nat, m: nat, k: nat)
    requires n > 0 && m > 0
    ensures Rates([n, m]) && TakenCount(OrMode, [n, m], k) == k / n + (k - k / n) / m
  {
    OrChain([n, m], k);
    assert [n, m][1..] == [m] && [m][1..] == [];
    assert OrCount([m], Left(k, n)) == Left(k, n) / m + OrCount([], Left(Left(k, n), m));
  }

  // ---- the combinator -------------------------------------------------------

  /** The first i samplers were called and let the loop go on. */
  function Bumped(counters: seq<nat>, i: nat): (b: seq<nat>)
    requires i <= |counters|
    ensures |b| == i
    ensures forall j | 0 <= j < i :: b[j] == counters[j] + 1
  {
    if i == 0 then [] else Bumped(counters, i - 1) + [counters[i - 1] + 1]
  }

  /** The outcome of a call whose loop has passed the first i samplers. */
  function From(mode: Mode, rates: seq<nat>, counters: seq<nat>, i: nat): Outcome
    requires Rates(rates) && |rates| == |counters| && i <= |rates|
  {
    var rest := ChainStep(mode, rates[i..], counters[i..]);
    Outcome(rest.take, Bumped(counters, i) + rest.counters)
  }

  /** Sampler i either lets the loop go on or decides the outcome. */
  lemma FromNext(mode: Mode, rates: seq<nat>, counters: seq<nat>, i: nat)
    requires Rates(rates) && |rates| == |counters| && i < |rates|
    ensures var take := (counters[i] + 1) % rates[i] == 0;
            From(mode, rates, counters, i)
            == if take == (mode == AndMode) then From(mode, rates, counters, i + 1)
               else Outcome(take, Bumped(counters, i + 1) + counters[i + 1..])
  {
    assert rates[i..][1..] == rates[i + 1..] && counters[i..][1..] == counters[i + 1..];
    Regroup(Bumped(counters, i), counters[i] + 1, ChainStep(mode, rates[i + 1..], counters[i + 1..]).counters);
    Regroup(Bumped(counters, i), counters[i] + 1, counters[i + 1..]);
  }

  lemma FromEnd(mode: Mode, rates: seq<nat>, counters: seq<nat>)
    requires Rates(rates) && |rates| == |counters|
    ensures From(mode, rates, counters, |rates|) == Outcome(mode == AndMode, Bumped(counters, |counters|))
    ensures From(mode, rates, counters, 0) == ChainStep(mode, rates, counters)
  {
    assert rates[0..] == rates && counters[0..] == counters;
  }

  lemma Regroup(a: seq<nat>, x: nat, b: seq<nat>)
    ensures a + ([x] + b) == (a + [x]) + b
  {
  }

  class MultiSampler {
    const samplers: seq<RateSampler>
    const mode: Mode
    ghost const rates: seq<nat>

    constructor (mode: Mode, samplers: seq<RateSampler>, ghost rates: seq<nat>)
      requires |rates| == |samplers| && forall i | 0 <= i < |rates| :: rates[i] == samplers[i].rate
      ensures this.mode == mode && this.samplers == samplers && this.rates == rates
    {
      this.mode, this.samplers, this.rates := mode, samplers, rates;
    }

    /** The samplers are distinct objects with positive rates. */
    ghost predicate Valid()
    {
      && Rates(rates) && |rates| == |samplers|
      && (forall i | 0 <= i < |samplers| :: samplers[i].rate == rates[i])
      && forall i, j | 0 <= i < j < |samplers| :: samplers[i] != samplers[j]
    }

    ghost predicate Counts(counters: seq<nat>)
      reads samplers
    {
      |counters| == |samplers| && forall i | 0 <= i < |samplers| :: samplers[i].counter == counters[i]
    }

    /** The samplers' counters are the outcome's. */
    ghost predicate Ends(take: bool, o: Outcome)
      reads samplers
    {
      o.take == take && Counts(o.counters)
    }

    ghost predicate Passed(was: seq<nat>, i: nat)
      reads samplers
    {
      && |was| == |samplers|
      && (forall j | 0 <= j < i && j < |samplers| :: samplers[j].counter == was[j] + 1)
      && (forall j | i <= j < |samplers| :: samplers[j].counter == was[j])
    }

    lemma PassedCounts(was: seq<nat>, i: nat)
      requires Passed(was, i) && i <= |samplers|
      ensures Counts(Bumped(was, i) + was[i..])
    {
    }

    /** One turn of the loop: sampler i is called, the others are left alone. */
    method Call(ghost was: seq<nat>, i: nat) returns (ok: bool)
      requires Valid() && i < |samplers| && Passed(was, i)
      modifies samplers
      ensures ok <==> (was[i] + 1) % rates[i] == 0
      ensures Passed(was, i + 1) && Counts(Bumped(was, i + 1) + was[i + 1..])
    {
      ok := samplers[i].Sample();
      PassedCounts(was, i + 1);
    }

    /** Samples until one refuses. */
    method SampleAll(ghost was: seq<nat>) returns (take: bool)
      requires Valid() && Counts(was)
      modifies samplers
      ensures Ends(take, AndStep(rates, was))
    {
      FromEnd(AndMode, rates, was);
      for i := 0 to |samplers|
        invariant Passed(was, i)
        invariant AndStep(rates, was) == From(AndMode, rates, was, i)
      {
        FromNext(AndMode, rates, was, i);
        var ok := Call(was, i);
        if !ok {
          return false;
        }
      }
      PassedCounts(was, |samplers|);
      assert Bumped(was, |samplers|) + was[|samplers|..] == Bumped(was, |samplers|);
      return true;
    }

    /** Samples until one takes. */
    method SampleAny(ghost was: seq<nat>) returns (take: bool)
      requires Valid() && Counts(was)
      modifies samplers
      ensures Ends(take, OrStep(rates, was))
    {
      FromEnd(OrMode, rates, was);
      for i := 0 to |samplers|
        invariant Passed(was, i)
        invariant OrStep(rates, was) == From(OrMode, rates, was, i)
      {
        FromNext(OrMode, rates, was, i);
        var ok := Call(was, i);
        if ok {
          return true;
        }
      }
      PassedCounts(was, |samplers|);
      assert Bumped(was, |samplers|) + was[|samplers|..] == Bumped(was, |samplers|);
      return false;
    }

    /** Sample, on samplers whose counters stand at `was`. */
    method Sample(ghost was: seq<nat>) returns (take: bool)
      requires Valid() && Counts(was)
      modifies samplers
      ensures Ends(take, MultiStep(mode, rates, was))
    {
      if |samplers| == 0 {
        return true;
      }
      if mode == AndMode {
        take := SampleAll(was);
      } else {
        take := SampleAny(was);
      }
    }
  }
}
