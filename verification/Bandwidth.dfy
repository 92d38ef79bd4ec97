/**
  Memory-bandwidth rates from sampled byte counters: the node collector and the arithmetic it shares
  with the others. Counters are 64-bit and wrap; rates are real numbers, division by a zero elapsed
  time giving a value that is not finite. Time stamps are whole seconds, or do not parse.
 */
module Bandwidth {
  import opened Graph

  const WORD := 0x1_0000_0000_0000_0000

  type Counter = n: nat | n < 0x1_0000_0000_0000_0000

  /** uint64 subtraction. */
  function Minus(a: Counter, b: Counter): Counter {
    (a - b) % WORD
  }

  function ToMB(bytes: int): real {
    bytes as real / 1000000.0
  }

  function ToMiB(bytes: int): real {
    bytes as real / 1048576.0
  }

  datatype Float = Finite(v: real) | NonFinite

  function Plus(a: Float, b: Float): Float {
    if a.Finite? && b.Finite? then Finite(a.v + b.v) else NonFinite
  }

  /** Each socket has two counters, each with its own time stamp. */
  datatype Which = Total | Local

  datatype Raw = Raw(totalBytes: Counter, totalAt: Option<int>, localBytes: Counter, localAt: Option<int>)
  {
    function Bytes(w: Which): Counter {
      match w case Total => totalBytes case Local => localBytes
    }

    function At(w: Which): Option<int> {
      match w case Total => totalAt case Local => localAt
    }

    predicate Timed() {
      totalAt.Some? && localAt.Some?
    }
  }

  datatype Rates = Rates(totalMBps: Float, localMBps: Float)
  {
    function Of(w: Which): Float {
      match w case Total => totalMBps case Local => localMBps
    }
  }

  /** None stands for a nil map: the metric is not collected. */
  datatype RawStats = RawStats(bandwidth: Option<map<string, Raw>>, cache: Option<map<string, Counter>>)

  datatype Processed = Processed(
    bandwidth: Option<map<string, Rates>>, sumBandwidth: Rates,
    cache: Option<map<string, Float>>, sumCache: Float)

  const NOTHING := Processed(None, Rates(Finite(0.0), Finite(0.0)), None, Finite(0.0))

  function Rate(before: Raw, after: Raw, w: Which): Float
    requires before.Timed() && after.Timed()
  {
    var elapsed := after.At(w).value - before.At(w).value;
    if elapsed == 0 then NonFinite else Finite(ToMB(Minus(after.Bytes(w), before.Bytes(w))) / elapsed as real)
  }

  // ----- sums over maps -----

  ghost function Sum(m: map<string, Float>): Float
    decreases |m|
  {
    if m == map[] then Finite(0.0)
    else
      var k :| k in m;
      assert |m - {k}| < |m| by { SmallerMap(m, k); }
      Plus(Sum(m - {k}), m[k])
  }

  lemma SmallerMap<V>(m: map<string, V>, k: string)
    requires k in m
    ensures |m - {k}| == |m| - 1
  {
    assert (m - {k}).Keys == m.Keys - {k};
    assert |(m - {k}).Keys| == |m.Keys| - 1;
  }

  /** The sum does not depend on the order in which the entries are added up. */
  lemma {:induction false} SumWithout(m: map<string, Float>, k: string)
    requires k in m
    ensures Sum(m) == Plus(Sum(m - {k}), m[k])
    decreases |m|
  {
    var j :| j in m && Sum(m) == Plus(Sum(m - {j}), m[j]);
    if j != k {
      SmallerMap(m, j);
      SmallerMap(m, k);
      SumWithout(m - {j}, k);
      SumWithout(m - {k}, j);
      assert m - {j} - {k} == m - {k} - {j};
      assert (m - {j})[k] == m[k] && (m - {k})[j] == m[j];
      PlusSwap(Sum(m - {j} - {k}), m[k], m[j]);
    }
  }

  lemma PlusSwap(a: Float, b: Float, c: Float)
    ensures Plus(Plus(a, b), c) == Plus(Plus(a, c), b)
  {
  }

  lemma SumWith(m: map<string, Float>, k: string, v: Float)
    requires k !in m
    ensures Sum(m[k := v]) == Plus(Sum(m), v)
  {
    SumWithout(m[k := v], k);
    assert m[k := v] - {k} == m;
  }

  /** A sum is finite just if all it is made of is, and then is what adding up real numbers gives. */
  lemma SumMeans(m: map<string, Float>, k: string, v: Float)
    requires k !in m
    ensures Sum(map[]) == Finite(0.0)
    ensures Sum(m[k := v]).Finite? <==> Sum(m).Finite? && v.Finite?
    ensures Sum(m).Finite? && v.Finite? ==> Sum(m[k := v]).v == Sum(m).v + v.v
  {
    SumWith(m, k, v);
  }

  // ----- processStats -----

  function Column(rates: map<string, Rates>, w: Which): map<string, Float> {
    map k | k in rates :: rates[k].Of(w)
  }

  /** Every new socket was there before, and all its time stamps parse. */
  predicate Comparable(before: map<string, Raw>, after: map<string, Raw>) {
    forall k :: k in after ==> k in before && before[k].Timed() && after[k].Timed()
  }

  /** What a pair of samples means; None is an error. */
  ghost predicate Means(before: RawStats, after: RawStats, p: Processed) {
    && p.cache.Some? == after.cache.Some?
    && (after.cache.Some? ==>
         && p.cache.value.Keys == after.cache.value.Keys
         && (forall k :: k in after.cache.value ==> p.cache.value[k] == Finite(ToMiB(after.cache.value[k])))
         && p.sumCache == Sum(p.cache.value))
    && (p.bandwidth.Some? <==> before.bandwidth.Some? && after.bandwidth.Some?)
    && (p.bandwidth.Some? ==>
         && Comparable(before.bandwidth.value, after.bandwidth.value)
         && p.bandwidth.value.Keys == after.bandwidth.value.Keys
         && RatesRight(before.bandwidth.value, after.bandwidth.value, p.bandwidth.value)
         && SumsRight(p.bandwidth.value, p.sumBandwidth))
  }

  /** A rate in MB per second: over the time elapsed it accounts for the bytes counted, around the end of the counter too. */
  predicate Accounts(rate: Float, from: Counter, at: int, to: Counter, now: int) {
    var bytes := if to >= from then to - from else to + 0x1_0000_0000_0000_0000 - from;
    if at == now then rate == NonFinite
    else rate.Finite? && rate.v * (now - at) as real * 1000000.0 == bytes as real
  }

  lemma RateAccounts(b: Raw, a: Raw, w: Which)
    requires b.Timed() && a.Timed()
    ensures Accounts(Rate(b, a, w), b.Bytes(w), b.At(w).value, a.Bytes(w), a.At(w).value)
  {
    if a.At(w).value != b.At(w).value {
      RateTimesElapsed(b, a, w);
      MinusCases(a.Bytes(w), b.Bytes(w));
    }
  }

  /** What a pair of samples gives for a socket, field by field. */
  lemma SocketMeans(before: RawStats, after: RawStats, p: Processed, socket: string)
    requires Means(before, after, p)
    ensures after.cache.Some? && socket in after.cache.value ==>
      && p.cache.Some? && socket in p.cache.value && p.cache.value[socket].Finite?
      && p.cache.value[socket].v * 1048576.0 == after.cache.value[socket] as real
    ensures before.bandwidth.Some? && after.bandwidth.Some? && socket in after.bandwidth.value ==>
      && socket in before.bandwidth.value
      && var b, a := before.bandwidth.value[socket], after.bandwidth.value[socket];
      && b.totalAt.Some? && b.localAt.Some? && a.totalAt.Some? && a.localAt.Some?
      && p.bandwidth.Some? && socket in p.bandwidth.value
      && Accounts(p.bandwidth.value[socket].totalMBps, b.totalBytes, b.totalAt.value, a.totalBytes, a.totalAt.value)
      && Accounts(p.bandwidth.value[socket].localMBps, b.localBytes, b.localAt.value, a.localBytes, a.localAt.value)
  {
    if before.bandwidth.Some? && after.bandwidth.Some? && socket in after.bandwidth.value {
      var b, a := before.bandwidth.value[socket], after.bandwidth.value[socket];
      var rates := p.bandwidth.value[socket];
      assert rates.Of(Total) == Rate(b, a, Total) && rates.Of(Local) == Rate(b, a, Local);
      RateAccounts(b, a, Total);
      RateAccounts(b, a, Local);
    }
  }

  method ProcessCache(cache: map<string, Counter>) returns (processed: map<string, Float>, sum: Float)
    ensures processed.Keys == cache.Keys
    ensures forall k :: k in cache ==> processed[k] == Finite(ToMiB(cache[k]))
    ensures sum == Sum(processed)
  {
    processed, sum := map[], Finite(0.0);
    var todo := cache.Keys;
    while todo != {}
      invariant todo <= cache.Keys && processed.Keys == cache.Keys - todo
      invariant forall k :: k in processed ==> processed[k] == Finite(ToMiB(cache[k]))
      invariant sum == Sum(processed)
    {
      var nid :| nid in todo;
      todo := todo - {nid};
      var cmt := Finite(ToMiB(cache[nid]));
      SumWith(processed, nid, cmt);
      sum := Plus(sum, cmt);
      processed := processed[nid := cmt];
    }
  }

  method ProcessBandwidth(before: map<string, Raw>, after: map<string, Raw>)
    returns (ok: bool, rates: map<string, Rates>, sum: Rates)
    ensures ok <==> Comparable(before, after)
    ensures ok ==> rates.Keys == after.Keys && RatesRight(before, after, rates) && SumsRight(rates, sum)
  {
    ok, rates, sum := true, map[], Rates(Finite(0.0), Finite(0.0));
    SumsNone();
    var todo := after.Keys;
    while todo != {}
      invariant ok && todo <= after.Keys && rates.Keys == after.Keys - todo
      invariant RatesRight(before, after, rates) && SumsRight(rates, sum)
    {
      var nid :| nid in todo;
      todo := todo - {nid};
      if nid !in before || !before[nid].Timed() || !after[nid].Timed() {
        ok := false;
        return;
      }
      var tmbm, lmbm := Rate(before[nid], after[nid], Total), Rate(before[nid], after[nid], Local);
      RatesOne(before, after, rates, nid);
      SumsOne(rates, sum, nid, Rates(tmbm, lmbm));
      sum := Rates(Plus(sum.totalMBps, tmbm), Plus(sum.localMBps, lmbm));
      rates := rates[nid := Rates(tmbm, lmbm)];
    }
  }

  /** The sockets seen so far were comparable, and these are their rates. */
  ghost predicate RatesRight(before: map<string, Raw>, after: map<string, Raw>, rates: map<string, Rates>) {
    && (forall k :: k in rates ==> k in after && k in before && before[k].Timed() && after[k].Timed())
    && (forall k, w :: k in rates ==> rates[k].Of(w) == Rate(before[k], after[k], w))
  }

  ghost predicate SumsRight(rates: map<string, Rates>, sum: Rates) {
    sum.totalMBps == Sum(Column(rates, Total)) && sum.localMBps == Sum(Column(rates, Local))
  }

  lemma SumsNone()
    ensures SumsRight(map[], Rates(Finite(0.0), Finite(0.0)))
  {
    assert Column(map[], Total) == map[] && Column(map[], Local) == map[];
  }

  lemma SumsOne(rates: map<string, Rates>, sum: Rates, nid: string, rate: Rates)
    requires SumsRight(rates, sum) && nid !in rates
    ensures SumsRight(rates[nid := rate], Rates(Plus(sum.totalMBps, rate.totalMBps), Plus(sum.localMBps, rate.localMBps)))
  {
    ColumnWith(rates, nid, rate, Total);
    ColumnWith(rates, nid, rate, Local);
  }

  lemma RatesOne(before: map<string, Raw>, after: map<string, Raw>, rates: map<string, Rates>, nid: string)
    requires RatesRight(before, after, rates)
    requires nid in after && nid in before && before[nid].Timed() && after[nid].Timed()
    ensures
      RatesRight(before, after, rates[nid := Rates(Rate(before[nid], after[nid], Total), Rate(before[nid], after[nid], Local))])
  {
  }

  lemma ColumnWith(rates: map<string, Rates>, nid: string, rate: Rates, w: Which)
    requires nid !in rates
    ensures Sum(Column(rates[nid := rate], w)) == Plus(Sum(Column(rates, w)), rate.Of(w))
  {
    SumWith(Column(rates, w), nid, rate.Of(w));
    assert Column(rates[nid := rate], w) == Column(rates, w)[nid := rate.Of(w)];
  }

  /** The error cases of a pair of samples. */
  predicate Failing(before: RawStats, after: RawStats) {
    before.bandwidth.Some? && after.bandwidth.Some? && !Comparable(before.bandwidth.value, after.bandwidth.value)
  }

  lemma FailingMeans(before: RawStats, after: RawStats)
    ensures Failing(before, after) <==>
      && before.bandwidth.Some? && after.bandwidth.Some?
      && exists k :: k in after.bandwidth.value &&
           (k !in before.bandwidth.value ||
            before.bandwidth.value[k].totalAt.None? || before.bandwidth.value[k].localAt.None? ||
            after.bandwidth.value[k].totalAt.None? || after.bandwidth.value[k].localAt.None?)
  {
  }

  method ProcessStats(before: RawStats, after: RawStats) returns (r: Option<Processed>)
    ensures r.None? <==> Failing(before, after)
    ensures r.Some? ==> Means(before, after, r.value)
  {
    var p := NOTHING;
    if after.cache.Some? {
      var cache, sumCache := ProcessCache(after.cache.value);
      p := p.(cache := Some(cache), sumCache := sumCache);
    }
    if after.bandwidth.Some? && before.bandwidth.Some? {
      var ok, rates, sum := ProcessBandwidth(before.bandwidth.value, after.bandwidth.value);
      if !ok {
        return None;
      }
      p := p.(bandwidth := Some(rates), sumBandwidth := sum);
    }
    return Some(p);
  }

  // ----- the collector and its one-slot cache -----

  datatype Stats = Stats(raw: RawStats, processed: Processed)

  /** None: the counters could not be read. */
  type Sample = Option<RawStats>

  class NodeCollector {
    var statsCache: Option<Stats>

    constructor ()
      ensures statsCache == None
    {
      statsCache := None;
    }

    /** A sample replaces the cache, unless it cannot be read or compared: then the old baseline stays. */
    method UpdateStats(sample: Sample) returns (ok: bool)
      modifies this
      ensures ok <==> Accepted(if old(statsCache).Some? then Some(old(statsCache).value.raw) else None, sample)
      ensures !ok ==> statsCache == old(statsCache)
      ensures ok ==> statsCache.Some? && statsCache.value.raw == sample.value
      ensures ok && old(statsCache).Some? ==> Means(old(statsCache).value.raw, sample.value, statsCache.value.processed)
      ensures ok && old(statsCache).None? ==> statsCache.value.processed == NOTHING
    {
      if sample.None? {
        return false;
      }
      if statsCache.Some? {
        var p := ProcessStats(statsCache.value.raw, sample.value);
        if p.None? {
          return false;
        }
        statsCache := Some(Stats(sample.value, p.value));
      } else {
        statsCache := Some(Stats(sample.value, NOTHING));
      }
      return true;
    }
  }

  // ----- whole runs -----

  predicate Accepted(baseline: Option<RawStats>, sample: Sample) {
    sample.Some? && (baseline.Some? ==> !Failing(baseline.value, sample.value))
  }

  /** The baseline after a run of samples: the last accepted one. */
  function Baseline(samples: seq<Sample>): Option<RawStats> {
    if samples == [] then None
    else
      var front := Baseline(samples[..|samples| - 1]);
      if Accepted(front, samples[|samples| - 1]) then samples[|samples| - 1] else front
  }

  /** The first accepted sample: the first that could be read. */
  function First(samples: seq<Sample>): Option<RawStats> {
    if samples == [] then None
    else
      var front := First(samples[..|samples| - 1]);
      if front.Some? then front else samples[|samples| - 1]
  }

  /** The collector's endless loop, cut off after any number of samples: its cache holds the baseline. */
  method Start(samples: seq<Sample>) returns (c: NodeCollector)
    ensures fresh(c)
    ensures Baseline(samples) == if c.statsCache.Some? then Some(c.statsCache.value.raw) else None
  {
    c := new NodeCollector();
    for i := 0 to |samples|
      invariant fresh(c)
      invariant Baseline(samples[..i]) == if c.statsCache.Some? then Some(c.statsCache.value.raw) else None
    {
      var _ := c.UpdateStats(samples[i]);
      assert samples[..i + 1][..i] == samples[..i];
    }
    assert samples[..|samples|] == samples;
  }

  predicate Has(s: RawStats, socket: string) {
    s.bandwidth.Some? && socket in s.bandwidth.value
  }

  /** The socket is in every accepted sample, and time passes between them. */
  ghost predicate Steady(samples: seq<Sample>, socket: string, w: Which) {
    samples != [] ==>
      var front, last := samples[..|samples| - 1], samples[|samples| - 1];
      var baseline := Baseline(front);
      && Steady(front, socket, w)
      && (Accepted(baseline, last) ==>
           && Has(last.value, socket)
           && (baseline.Some? && Has(baseline.value, socket) && baseline.value.bandwidth.value[socket].Timed() &&
               last.value.bandwidth.value[socket].Timed() ==>
                 last.value.bandwidth.value[socket].At(w) != baseline.value.bandwidth.value[socket].At(w)))
  }

  /** The bytes a sample adds to its baseline, as the subtraction in the code sees them. */
  function Gain(samples: seq<Sample>, socket: string, w: Which): nat
    requires samples != []
  {
    var baseline, last := Baseline(samples[..|samples| - 1]), samples[|samples| - 1];
    if baseline.Some? && Accepted(baseline, last) && Has(baseline.value, socket) && Has(last.value, socket)
    then Minus(last.value.bandwidth.value[socket].Bytes(w), baseline.value.bandwidth.value[socket].Bytes(w)) else 0
  }

  function Gains(samples: seq<Sample>, socket: string, w: Which): nat {
    if samples == [] then 0 else Gains(samples[..|samples| - 1], socket, w) + Gain(samples, socket, w)
  }

  /** Rate times elapsed time, added up over the samples for which a rate was computed. */
  function Transferred(samples: seq<Sample>, socket: string, w: Which): real {
    if samples == [] then 0.0
    else
      var front, last := samples[..|samples| - 1], samples[|samples| - 1];
      var baseline := Baseline(front);
      Transferred(front, socket, w) +
      if baseline.Some? && Accepted(baseline, last) && Has(baseline.value, socket) && Has(last.value, socket) then
        var b, a := baseline.value.bandwidth.value[socket], last.value.bandwidth.value[socket];
        var rate := Rate(b, a, w);
        if rate.Finite? then rate.v * (a.At(w).value - b.At(w).value) as real else 0.0
      else 0.0
  }

  ghost predicate Monotone(samples: seq<Sample>, socket: string, w: Which) {
    samples != [] ==>
      var front, last := samples[..|samples| - 1], samples[|samples| - 1];
      var baseline := Baseline(front);
      && Monotone(front, socket, w)
      && (baseline.Some? && Accepted(baseline, last) && Has(baseline.value, socket) && Has(last.value, socket) ==>
           last.value.bandwidth.value[socket].Bytes(w) >= baseline.value.bandwidth.value[socket].Bytes(w))
  }

  lemma RateTimesElapsed(b: Raw, a: Raw, w: Which)
    requires b.Timed() && a.Timed() && a.At(w) != b.At(w)
    ensures Rate(b, a, w).Finite?
    ensures Rate(b, a, w).v * (a.At(w).value - b.At(w).value) as real == ToMB(Minus(a.Bytes(w), b.Bytes(w)))
  {
    var t := (a.At(w).value - b.At(w).value) as real;
    var x := ToMB(Minus(a.Bytes(w), b.Bytes(w)));
    assert t != 0.0;
    assert x / t * t == x;
  }

  /** What the rates account for is what the counters gained. */
  lemma {:induction false} TransferredIsGains(samples: seq<Sample>, socket: string, w: Which)
    requires Steady(samples, socket, w)
    ensures Transferred(samples, socket, w) == ToMB(Gains(samples, socket, w))
  {
    if samples != [] {
      var front, last := samples[..|samples| - 1], samples[|samples| - 1];
      TransferredIsGains(front, socket, w);
      var baseline := Baseline(front);
      if baseline.Some? && Accepted(baseline, last) && Has(baseline.value, socket) {
        RateTimesElapsed(baseline.value.bandwidth.value[socket], last.value.bandwidth.value[socket], w);
      }
    }
  }

  lemma {:induction false} SteadyBaseline(samples: seq<Sample>, socket: string, w: Which)
    requires Steady(samples, socket, w)
    ensures Baseline(samples).Some? == First(samples).Some?
    ensures Baseline(samples).Some? ==> Has(Baseline(samples).value, socket) && Has(First(samples).value, socket)
  {
    if samples != [] {
      SteadyBaseline(samples[..|samples| - 1], socket, w);
    }
  }

  /** Differences taken modulo 2^64 telescope modulo 2^64. */
  lemma MinusTelescopes(a: Counter, b: Counter, c: Counter, gains: nat)
    requires gains % WORD == Minus(b, a)
    ensures (gains + Minus(c, b)) % WORD == Minus(c, a)
    ensures gains == b - a && c >= b ==> gains + Minus(c, b) == c - a
  {
    var k := gains / WORD;
    MinusCases(b, a);
    MinusCases(c, b);
    MinusCases(c, a);
    if Minus(b, a) + Minus(c, b) == Minus(c, a) {
      ModOf(k, Minus(c, a));
    } else {
      ModOf(k + 1, Minus(c, a));
    }
  }

  lemma MinusCases(a: Counter, b: Counter)
    ensures Minus(a, b) == if a >= b then a - b else a - b + WORD
  {
  }

  lemma ModOf(k: int, m: Counter)
    ensures (WORD * k + m) % WORD == m
  {
  }

  lemma {:induction false} GainsTelescope(samples: seq<Sample>, socket: string, w: Which)
    requires Steady(samples, socket, w) && Baseline(samples).Some?
    ensures First(samples).Some? && Has(First(samples).value, socket) && Has(Baseline(samples).value, socket)
    ensures
      var first, last := First(samples).value.bandwidth.value[socket], Baseline(samples).value.bandwidth.value[socket];
      && Gains(samples, socket, w) % WORD == Minus(last.Bytes(w), first.Bytes(w))
      && (Monotone(samples, socket, w) ==> Gains(samples, socket, w) == last.Bytes(w) - first.Bytes(w))
  {
    SteadyBaseline(samples, socket, w);
    var front, last := samples[..|samples| - 1], samples[|samples| - 1];
    SteadyBaseline(front, socket, w);
    if Baseline(front).Some? {
      GainsTelescope(front, socket, w);
      if Accepted(Baseline(front), last) {
        MinusTelescopes(First(front).value.bandwidth.value[socket].Bytes(w),
                        Baseline(front).value.bandwidth.value[socket].Bytes(w),
                        last.value.bandwidth.value[socket].Bytes(w), Gains(front, socket, w));
      }
    } else {
      NoGainsYet(front, socket, w);
    }
  }

  lemma {:induction false} NoGainsYet(samples: seq<Sample>, socket: string, w: Which)
    requires Baseline(samples).None?
    ensures Gains(samples, socket, w) == 0
  {
    if samples != [] {
      NoGainsYet(samples[..|samples| - 1], socket, w);
    }
  }

  /**
    Rates telescope. Over any run of samples, with unreadable and incomparable ones anywhere in it, the
    rates of a steady socket times their elapsed times add up to the last counter minus the first in MB:
    exactly for a counter that does not go back, up to a multiple of 2^64 bytes otherwise.
   */
  lemma RatesTelescope(samples: seq<Sample>, socket: string, w: Which)
    requires Steady(samples, socket, w) && Baseline(samples).Some?
    ensures First(samples).Some? && Has(First(samples).value, socket) && Has(Baseline(samples).value, socket)
    ensures
      var first, last := First(samples).value.bandwidth.value[socket], Baseline(samples).value.bandwidth.value[socket];
      && (Monotone(samples, socket, w) ==> Transferred(samples, socket, w) * 1000000.0 == (last.Bytes(w) - first.Bytes(w)) as real)
      && exists bytes: nat :: Transferred(samples, socket, w) * 1000000.0 == bytes as real && bytes % WORD == (last.Bytes(w) - first.Bytes(w)) % WORD
  {
    TransferredIsGains(samples, socket, w);
    GainsTelescope(samples, socket, w);
    var bytes := Gains(samples, socket, w);
    assert Transferred(samples, socket, w) * 1000000.0 == bytes as real;
  }

  /** A socket that shows up after the baseline was taken: no sample that has it is ever accepted again. */
  lemma {:induction false} NewSocketJamsCollector(samples: seq<Sample>, more: seq<Sample>, socket: string)
    requires Baseline(samples).Some? && Baseline(samples).value.bandwidth.Some?
    requires !Has(Baseline(samples).value, socket)
    requires forall k :: 0 <= k < |more| ==> more[k].Some? ==> Has(more[k].value, socket)
    ensures Baseline(samples + more) == Baseline(samples)
  {
    if more == [] {
      assert samples + more == samples;
    } else {
      NewSocketJamsCollector(samples, more[..|more| - 1], socket);
      assert (samples + more)[..|samples + more| - 1] == samples + more[..|more| - 1];
      assert more[|more| - 1].Some? ==> Has(more[|more| - 1].value, socket);
    }
  }
}
