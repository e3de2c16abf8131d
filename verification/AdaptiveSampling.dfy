/** The adaptive sampler as a rate controller: doubling while windows are busy, decaying
    while they are quiet. Time is an input. */
module AdaptiveSampling {
  import opened Bits
  import opened Sampling

  datatype Config = Config(baseRate: nat, maxRate: nat, windowSize: int, threshold: int, decay: real)

  /** What the constructor makes of its arguments. */
  function Configured(baseRate: int, maxRate: int, windowSize: int, threshold: int, decay: real): Config
  {
    Config(
      if baseRate <= 0 then 1 else baseRate,
      if maxRate <= 0 then 1000 else maxRate,
      if windowSize <= 0 then 1_000_000_000 else windowSize,
      if threshold <= 0 then 1000 else threshold,
      if decay <= 0.0 || decay >= 1.0 then 0.9 else decay)
  }

  predicate Sound(c: Config)
  {
    c.baseRate > 0 && c.maxRate > 0 && 0.0 < c.decay < 1.0
  }

  datatype Control = Control(rate: nat, counter: nat, volume: nat, lastReset: int)

  function Min(a: nat, b: nat): nat
  {
    if a < b then a else b
  }

  function Max(a: nat, b: nat): nat
  {
    if a > b then a else b
  }

  /** int(float64(rate) * decay): truncation towards zero. */
  function Decayed(c: Config, rate: nat): (r: nat)
    requires Sound(c)
    ensures r <= rate && (rate > 0 ==> r < rate)
  {
    Scaled(rate as real, c.decay).Floor
  }

  function Scaled(x: real, d: real): (y: real)
    requires x >= 0.0 && 0.0 < d < 1.0
    ensures 0.0 <= y <= x && (x > 0.0 ==> y < x)
  {
    ProductBelow(x, d);
    x * d
  }

  lemma ProductBelow(x: real, d: real)
    requires x >= 0.0 && 0.0 < d < 1.0
    ensures 0.0 <= x * d <= x && (x > 0.0 ==> x * d < x)
  {
    if x > 0.0 {
      assert x * (1.0 - d) > 0.0;
      assert x * (1.0 - d) == x - x * d;
      assert x * d > 0.0;
    }
  }

  // ---- the rate -------------------------------------------------------------

  function Adjusted(c: Config, rate: nat, volume: nat): nat
    requires Sound(c)
  {
    if volume > c.threshold then Min(rate * 2, c.maxRate) else Max(Decayed(c, rate), c.baseRate)
  }

  predicate Expired(c: Config, s: Control, now: int)
  {
    now - s.lastReset > c.windowSize
  }

  /** The state in which a call at `now` makes its decision. */
  function Timed(c: Config, s: Control, now: int): Control
    requires Sound(c)
  {
    if Expired(c, s, now) then Control(Adjusted(c, s.rate, s.volume + 1), s.counter, 0, now)
    else s.(volume := s.volume + 1)
  }

  function Called(c: Config, s: Control, now: int): Control
    requires Sound(c)
  {
    var t := Timed(c, s, now);
    t.(counter := t.counter + 1)
  }

  function Run(c: Config, s: Control, times: seq<int>): Control
    requires Sound(c)
    decreases |times|
  {
    if times == [] then s else Run(c, Called(c, s, times[0]), times[1..])
  }

  /** The volumes that were swapped out on the way. */
  function Windows(c: Config, s: Control, times: seq<int>): seq<nat>
    requires Sound(c)
    decreases |times|
  {
    if times == [] then []
    else (if Expired(c, s, times[0]) then [s.volume + 1] else []) + Windows(c, Called(c, s, times[0]), times[1..])
  }

  function Sum(xs: seq<nat>): nat
  {
    if xs == [] then 0 else xs[0] + Sum(xs[1..])
  }

  /** Every call is counted in exactly one window: the volumes swapped out and the
      volume still running add up to the calls made. */
  lemma {:induction false} VolumesAddUp(c: Config, s: Control, times: seq<int>)
    requires Sound(c)
    ensures Sum(Windows(c, s, times)) + Run(c, s, times).volume == s.volume + |times|
    decreases |times|
  {
    if times != [] {
      var s' := Called(c, s, times[0]);
      VolumesAddUp(c, s', times[1..]);
      if Expired(c, s, times[0]) {
        assert Windows(c, s, times)[1..] == Windows(c, s', times[1..]);
      } else {
        assert Windows(c, s, times) == Windows(c, s', times[1..]);
      }
    }
  }

  predicate Within(c: Config, rate: nat)
  {
    Min(c.baseRate, c.maxRate) <= rate <= Max(c.baseRate, c.maxRate)
  }

  /** Whatever the configuration, over every run the rate stays between the smaller and
      the larger of the two rates, so it never reaches zero. */
  lemma {:induction false} RateWithin(c: Config, s: Control, times: seq<int>)
    requires Sound(c) && Within(c, s.rate)
    ensures Within(c, Run(c, s, times).rate) && Run(c, s, times).rate > 0
    decreases |times|
  {
    if times != [] {
      RateWithin(c, Called(c, s, times[0]), times[1..]);
    }
  }

  function Fresh(c: Config, now: int): Control
  {
    Control(c.baseRate, 0, 0, now)
  }

  /** The rate lies in [BaseRate, MaxRate] over every run of a new sampler exactly when
      BaseRate <= MaxRate, which the constructor does not check. */
  lemma RateBounds(c: Config, now: int)
    requires Sound(c)
    ensures (forall times: seq<int> :: c.baseRate <= Run(c, Fresh(c, now), times).rate <= c.maxRate)
            <==> c.baseRate <= c.maxRate
  {
    var none: seq<int> := [];
    assert Run(c, Fresh(c, now), none).rate == c.baseRate;
    if c.baseRate <= c.maxRate {
      forall times: seq<int> ensures c.baseRate <= Run(c, Fresh(c, now), times).rate <= c.maxRate {
        RateWithin(c, Fresh(c, now), times);
      }
    }
  }

  // ---- busy and quiet windows -----------------------------------------------

  /** The rate after windows of the given volumes. */
  function RateAfter(c: Config, rate: nat, volumes: seq<nat>): nat
    requires Sound(c)
  {
    if volumes == [] then rate else Adjusted(c, RateAfter(c, rate, volumes[..|volumes| - 1]), volumes[|volumes| - 1])
  }

  lemma {:induction false} RateAfterCons(c: Config, rate: nat, v: nat, volumes: seq<nat>)
    requires Sound(c)
    ensures RateAfter(c, rate, [v] + volumes) == RateAfter(c, Adjusted(c, rate, v), volumes)
    decreases |volumes|
  {
    if volumes == [] {
      assert ([v] + volumes)[..0] == [];
    } else {
      assert ([v] + volumes)[..|volumes|] == [v] + volumes[..|volumes| - 1];
      RateAfterCons(c, rate, v, volumes[..|volumes| - 1]);
    }
  }

  /** The rate depends on nothing but the volumes of the windows passed. */
  lemma {:induction false} RateFollowsWindows(c: Config, s: Control, times: seq<int>)
    requires Sound(c)
    ensures Run(c, s, times).rate == RateAfter(c, s.rate, Windows(c, s, times))
    decreases |times|
  {
    if times != [] {
      var s' := Called(c, s, times[0]);
      RateFollowsWindows(c, s', times[1..]);
      if Expired(c, s, times[0]) {
        RateAfterCons(c, s.rate, s.volume + 1, Windows(c, s', times[1..]));
      } else {
        assert Windows(c, s, times) == Windows(c, s', times[1..]);
      }
    }
  }

  predicate Busy(c: Config, volumes: seq<nat>)
  {
    forall i | 0 <= i < |volumes| :: volumes[i] > c.threshold
  }

  predicate Quiet(c: Config, volumes: seq<nat>)
  {
    forall i | 0 <= i < |volumes| :: volumes[i] <= c.threshold
  }

  /** j busy windows in a row bring the rate r to min(r·2^j, MaxRate). */
  lemma {:induction false} BusyDoubles(c: Config, rate: nat, volumes: seq<nat>)
    requires Sound(c) && rate <= c.maxRate && Busy(c, volumes)
    ensures RateAfter(c, rate, volumes) == Min(rate * Pow2(|volumes|), c.maxRate)
    decreases |volumes|
  {
    if volumes != [] {
      var n := |volumes| - 1;
      BusyDoubles(c, rate, volumes[..n]);
      assert volumes[n] > c.threshold;
      assert rate * Pow2(n + 1) == rate * Pow2(n) * 2;
    } else {
      assert rate * Pow2(0) == rate;
    }
  }

  /** Quiet windows take the rate down by at least one each until it is BaseRate, and
      keep it there. */
  lemma {:induction false} QuietDecays(c: Config, rate: nat, volumes: seq<nat>)
    requires Sound(c) && rate >= c.baseRate && Quiet(c, volumes)
    ensures c.baseRate <= RateAfter(c, rate, volumes)
    ensures RateAfter(c, rate, volumes) <= (if rate - |volumes| > c.baseRate then rate - |volumes| else c.baseRate)
    decreases |volumes|
  {
    if volumes != [] {
      var n := |volumes| - 1;
      QuietDecays(c, rate, volumes[..n]);
      assert volumes[n] <= c.threshold;
    }
  }

  /** So rate - BaseRate quiet windows are always enough, and each one before that
      strictly lowers the rate. */
  lemma QuietReachesBase(c: Config, rate: nat, volumes: seq<nat>)
    requires Sound(c) && rate >= c.baseRate && Quiet(c, volumes)
    ensures |volumes| >= rate - c.baseRate ==> RateAfter(c, rate, volumes) == c.baseRate
    ensures volumes != [] && RateAfter(c, rate, volumes[..|volumes| - 1]) > c.baseRate
            ==> RateAfter(c, rate, volumes) < RateAfter(c, rate, volumes[..|volumes| - 1])
  {
    QuietDecays(c, rate, volumes);
    if volumes != [] {
      assert volumes[|volumes| - 1] <= c.threshold;
    }
  }

  lemma OneWindow(c: Config, rate: nat, volume: nat)
    requires Sound(c)
    ensures RateAfter(c, rate, [volume]) == Adjusted(c, rate, volume)
  {
    assert [volume][..0] == [];
  }

  /** One quiet window multiplies the rate by the decay factor and drops the fraction,
      unless that is less than BaseRate. */
  lemma QuietWindow(c: Config, rate: nat, volume: nat)
    requires Sound(c) && volume <= c.threshold
    ensures var next := RateAfter(c, rate, [volume]); var product := rate as real * c.decay;
            && (next == c.baseRate || next as real <= product < next as real + 1.0)
            && (next == c.baseRate ==> product < c.baseRate as real + 1.0)
            && next >= c.baseRate
  {
    OneWindow(c, rate, volume);
  }

  /** The rate scaled j times, each time without its fraction. */
  function ScaledDown(rate: nat, decay: real, j: nat): (r: nat)
    requires 0.0 < decay < 1.0
    ensures r <= rate
  {
    if j == 0 then rate
    else
      Scaled(ScaledDown(rate, decay, j - 1) as real, decay).Floor
  }

  lemma ScaledDownStep(rate: nat, decay: real, j: nat)
    requires 0.0 < decay < 1.0
    ensures ScaledDown(rate, decay, 0) == rate
    ensures var next, product := ScaledDown(rate, decay, j + 1) as real, ScaledDown(rate, decay, j) as real * decay;
            next <= product < next + 1.0
  {
    ScaledFloor(ScaledDown(rate, decay, j), decay, ScaledDown(rate, decay, j + 1));
  }

  lemma ScaledFloor(x: nat, d: real, next: nat)
    requires 0.0 < d < 1.0 && next == Scaled(x as real, d).Floor
    ensures next as real <= x as real * d < next as real + 1.0
  {
    FloorBracket(Scaled(x as real, d));
  }

  lemma FloorBracket(x: real)
    ensures x.Floor as real <= x < x.Floor as real + 1.0
  {
  }

  lemma ScaleLess(x: nat, y: nat, d: real)
    requires x <= y && 0.0 < d < 1.0
    ensures Scaled(x as real, d).Floor <= Scaled(y as real, d).Floor
  {
    assert (y as real - x as real) * d >= 0.0;
    assert (y as real - x as real) * d == y as real * d - x as real * d;
  }

  lemma QuietStep(c: Config, product: nat, rate: nat, volume: nat)
    requires Sound(c) && volume <= c.threshold
    requires rate == product || (rate == c.baseRate && product <= rate)
    ensures var next := Scaled(product as real, c.decay).Floor;
            Adjusted(c, rate, volume) == if next > c.baseRate then next else c.baseRate
  {
    if rate != product {
      ScaleLess(product, rate, c.decay);
    }
  }

  /** j quiet windows in a row bring the rate to the j-fold product, each factor's
      fraction dropped, or to BaseRate if that is more. */
  lemma {:induction false} QuietExactly(c: Config, rate: nat, volumes: seq<nat>)
    requires Sound(c) && Quiet(c, volumes) && volumes != []
    ensures var product := ScaledDown(rate, c.decay, |volumes|);
            RateAfter(c, rate, volumes) == if product > c.baseRate then product else c.baseRate
    decreases |volumes|
  {
    var n := |volumes| - 1;
    assert volumes[n] <= c.threshold;
    if n == 0 {
      assert volumes[..0] == [];
    } else {
      QuietExactly(c, rate, volumes[..n]);
    }
    QuietStep(c, ScaledDown(rate, c.decay, n), RateAfter(c, rate, volumes[..n]), volumes[n]);
  }

  // ---- windows by the clock --------------------------------------------------

  /** Calls no later than WindowSize after the last reset close no window and leave the
      rate alone; the first later one closes it. */
  lemma {:induction false} WindowLasts(c: Config, s: Control, times: seq<int>, late: int)
    requires Sound(c) && forall i | 0 <= i < |times| :: times[i] <= s.lastReset + c.windowSize
    ensures Windows(c, s, times) == [] && Run(c, s, times).rate == s.rate && Run(c, s, times).lastReset == s.lastReset
    ensures late > s.lastReset + c.windowSize ==> Windows(c, s, times + [late]) == [s.volume + |times| + 1]
    decreases |times|
  {
    if times == [] {
      assert times + [late] == [late] && [late][1..] == [];
    } else {
      assert times[0] <= s.lastReset + c.windowSize;
      assert (times + [late])[1..] == times[1..] + [late];
      WindowLasts(c, Called(c, s, times[0]), times[1..], late);
    }
  }

  // ---- what is taken --------------------------------------------------------

  predicate TakesAt(c: Config, s: Control, now: int)
    requires Sound(c)
  {
    Called(c, s, now).rate > 0 && Called(c, s, now).counter % Called(c, s, now).rate == 0
  }

  function TakenIn(c: Config, s: Control, times: seq<int>): nat
    requires Sound(c)
    decreases |times|
  {
    if times == [] then 0
    else (if TakesAt(c, s, times[0]) then 1 else 0) + TakenIn(c, Called(c, s, times[0]), times[1..])
  }

  /** The rate is r at every call of the run. */
  predicate RateIs(c: Config, s: Control, times: seq<int>, r: nat)
    requires Sound(c)
    decreases |times|
  {
    times == [] || (Called(c, s, times[0]).rate == r && RateIs(c, Called(c, s, times[0]), times[1..], r))
  }

  lemma {:induction false} TakenFromFront(c: nat, n: nat, k: nat)
    requires n > 0 && k > 0
    ensures Taken(c, n, k) == (if (c + 1) % n == 0 then 1 else 0) + Taken(c + 1, n, k - 1)
    decreases k
  {
    if k > 1 {
      TakenFromFront(c, n, k - 1);
    }
  }

  lemma {:induction false} TakenAtRate(c: Config, s: Control, times: seq<int>, r: nat)
    requires Sound(c) && r > 0 && RateIs(c, s, times, r)
    ensures TakenIn(c, s, times) == Taken(s.counter, r, |times|)
    decreases |times|
  {
    if times != [] {
      TakenAtRate(c, Called(c, s, times[0]), times[1..], r);
      TakenFromFront(s.counter, r, |times|);
    }
  }

  /** Any m calls in a row at rate r take m/r of them, rounded down or up. */
  lemma ConstantRateCount(c: Config, s: Control, times: seq<int>, r: nat)
    requires Sound(c) && r > 0 && RateIs(c, s, times, r)
    ensures |times| / r <= TakenIn(c, s, times) <= |times| / r + (if |times| % r == 0 then 0 else 1)
    ensures TakenIn(c, s, times) == (s.counter + |times|) / r - s.counter / r
  {
    TakenAtRate(c, s, times, r);
    RateCount(s.counter, r, |times|);
    TakenExactly(s.counter, r, |times|);
  }

  // ---- the sampler ----------------------------------------------------------

  class AdaptiveSampler {
    const config: Config
    var currentRate: nat
    var counter: nat
    var volume: nat
    var lastReset: int

    ghost predicate Valid()
      reads this
    {
      Sound(config) && Within(config, currentRate)
    }

    ghost function State(): Control
      reads this
    {
      Control(currentRate, counter, volume, lastReset)
    }

    constructor (baseRate: int, maxRate: int, windowSize: int, threshold: int, decay: real, now: int)
      ensures Valid() && config == Configured(baseRate, maxRate, windowSize, threshold, decay)
      ensures config.baseRate == (if baseRate > 0 then baseRate else 1)
      ensures config.maxRate == (if maxRate > 0 then maxRate else 1000)
      ensures config.windowSize == (if windowSize > 0 then windowSize else 1_000_000_000)
      ensures config.threshold == (if threshold > 0 then threshold else 1000)
      ensures config.decay == (if 0.0 < decay < 1.0 then decay else 0.9)
      ensures State() == Fresh(config, now)
    {
      config := Configured(baseRate, maxRate, windowSize, threshold, decay);
      currentRate := if baseRate <= 0 then 1 else baseRate;
      counter, volume, lastReset := 0, 0, now;
    }

    /** adjustSamplingRate */
    method AdjustSamplingRate(now: int)
      requires Valid()
      modifies this
      ensures Valid() && State() == Control(Adjusted(config, old(currentRate), old(volume)), old(counter), 0, now)
      ensures old(volume) > config.threshold ==> currentRate == Min(2 * old(currentRate), config.maxRate)
      ensures old(volume) <= config.threshold ==>
                currentRate == config.baseRate
                || currentRate as real <= old(currentRate) as real * config.decay < currentRate as real + 1.0
    {
      var v := volume;
      volume := 0;
      lastReset := now;
      if v > config.threshold {
        currentRate := Min(currentRate * 2, config.maxRate);
      } else {
        currentRate := Max(Decayed(config, currentRate), config.baseRate);
      }
    }

    method Sample(now: int) returns (take: bool)
      requires Valid()
      modifies this
      ensures Valid() && State() == Called(config, old(State()), now)
      ensures take <==> TakesAt(config, old(State()), now)
    {
      volume := volume + 1;
      if now - lastReset > config.windowSize {
        AdjustSamplingRate(now);
      }
      counter := counter + 1;
      FastTestIsRemainder(counter, currentRate);
      if BitAnd(currentRate, currentRate - 1) == 0 {
        take := BitAnd(counter, currentRate - 1) == 0;
      } else {
        take := counter % currentRate == 0;
      }
    }
  }
}
