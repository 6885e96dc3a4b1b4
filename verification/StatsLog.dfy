/** The log of the helper's counters: testing/stats.py and the rates of
    plot-stats. */
module StatsLog {
  import opened Wrappers
  import opened Endpoints

  /** One report: the time in seconds and the counters of both endpoints. */
  datatype Entry = Entry(time: real, host: Stats, vm: Stats)

  /** The differences of the five counter fields. */
  datatype Delta = Delta(packets: int, bytes: int, drops: int, fast: int, slow: int)
  datatype Deltas = Deltas(host: Delta, vm: Delta)

  function Minus(a: Stats, b: Stats): Delta {
    Delta(a.packets - b.packets, a.bytes - b.bytes, a.drops - b.drops, a.fast - b.fast, a.slow - b.slow)
  }

  function Plus(a: Delta, b: Delta): Delta {
    Delta(a.packets + b.packets, a.bytes + b.bytes, a.drops + b.drops, a.fast + b.fast, a.slow + b.slow)
  }

  /** compute_delta(). */
  function ComputeDelta(prev: Entry, curr: Entry): Deltas {
    Deltas(Minus(curr.host, prev.host), Minus(curr.vm, prev.vm))
  }

  /** Adding the delta to a, field by field, gives b. */
  predicate Leads(a: Stats, d: Delta, b: Stats) {
    && b.packets == a.packets + d.packets && b.bytes == a.bytes + d.bytes && b.drops == a.drops + d.drops
    && b.fast == a.fast + d.fast && b.slow == a.slow + d.slow
  }

  const ZERO := Delta(0, 0, 0, 0, 0)

  function SumDeltas(log: seq<Entry>): Deltas {
    if |log| < 2 then Deltas(ZERO, ZERO)
    else
      var n := |log| - 1;
      var sum, d := SumDeltas(log[..n]), ComputeDelta(log[n - 1], log[n]);
      Deltas(Plus(sum.host, d.host), Plus(sum.vm, d.vm))
  }

  /** Every field of the deltas of a log telescopes. */
  lemma {:induction false} DeltasTelescope(log: seq<Entry>)
    requires log != []
    ensures SumDeltas(log) == ComputeDelta(log[0], log[|log| - 1])
    ensures Leads(log[0].host, SumDeltas(log).host, log[|log| - 1].host)
    ensures Leads(log[0].vm, SumDeltas(log).vm, log[|log| - 1].vm)
  {
    if |log| > 1 {
      DeltasTelescope(log[..|log| - 1]);
    }
  }

  /** int(): truncation toward zero. */
  function Int(x: real): int { if x >= 0.0 then x.Floor else -(-x).Floor }

  datatype Rate = Rate(bitrateGbps: real, packets: int, drops: int, fast: int, slow: int)
  datatype Record = Record(host: Rate, vm: Rate)

  function RateOf(d: Delta, duration: real): Rate
    requires duration > 0.0
  {
    Rate(d.bytes as real * 8.0 / duration / 1000000000.0, Int(d.packets as real / duration), d.drops,
         Int(d.fast as real / duration), Int(d.slow as real / duration))
  }

  function RecordOf(prev: Entry, curr: Entry): Record
    requires curr.time > prev.time
  {
    var d, duration := ComputeDelta(prev, curr), curr.time - prev.time;
    Record(RateOf(d.host, duration), RateOf(d.vm, duration))
  }

  /** A record for every interval of a log that has a positive duration. */
  function Rates(log: seq<Entry>): seq<Record> {
    if |log| < 2 then []
    else
      var n := |log| - 1;
      Rates(log[..n]) + (if log[n].time > log[n - 1].time then [RecordOf(log[n - 1], log[n])] else [])
  }

  /** compute_rates(): the pairwise scan with `prev`. */
  method ComputeRates(log: seq<Entry>) returns (records: seq<Record>)
    ensures records == Rates(log)
  {
    records := [];
    var prev: Option<Entry> := None;
    for i := 0 to |log|
      invariant records == Rates(log[..i])
      invariant prev == if i == 0 then None else Some(log[i - 1])
    {
      var curr := log[i];
      assert log[..i + 1][..i] == log[..i];
      if prev.Some? {
        var duration := curr.time - prev.value.time;
        if duration <= 0.0 {
          prev := Some(curr);
          continue;
        }
        records := records + [RecordOf(prev.value, curr)];
      }
      prev := Some(curr);
    }
    assert log[..|log|] == log;
  }

  /** r is n counted over a duration, cut to a whole number per second. */
  predicate PerSecond(r: int, n: int, duration: real) {
    if n >= 0 then r as real * duration <= n as real < r as real * duration + duration
    else r as real * duration - duration < n as real <= r as real * duration
  }

  predicate RateMeans(r: Rate, a: Stats, b: Stats, duration: real) {
    && r.bitrateGbps * 1000000000.0 * duration == 8.0 * (b.bytes - a.bytes) as real
    && PerSecond(r.packets, b.packets - a.packets, duration)
    && r.drops == b.drops - a.drops
    && PerSecond(r.fast, b.fast - a.fast, duration)
    && PerSecond(r.slow, b.slow - a.slow, duration)
  }

  lemma IntPerSecond(n: int, duration: real)
    requires duration > 0.0
    ensures PerSecond(Int(n as real / duration), n, duration)
  {
    var q := n as real / duration;
    QuotientSign(n, duration);
    var r := Int(q);
    CutScaled(r as real, q, n as real, duration);
    hide Int;
    assert PerSecond(r, n, duration);
  }

  lemma QuotientSign(n: int, duration: real)
    requires duration > 0.0
    ensures var q := n as real / duration; q * duration == n as real && (n >= 0 <==> q >= 0.0)
  {
  }

  lemma CutScaled(r: real, q: real, n: real, duration: real)
    requires duration > 0.0 && q * duration == n
    ensures r <= q < r + 1.0 ==> r * duration <= n < r * duration + duration
    ensures r - 1.0 < q <= r ==> r * duration - duration < n <= r * duration
  {
    Distributes(q, r, duration);
    Fraction(q - r, duration);
    hide Times;
    var part, whole := Times(q - r, duration), Times(r, duration);
    assert r <= q < r + 1.0 ==> 0.0 <= part < duration;
    assert r - 1.0 < q <= r ==> -duration < part <= 0.0;
    assert part == n - whole;
  }

  function Times(a: real, b: real): real { a * b }

  lemma Distributes(q: real, r: real, duration: real)
    ensures Times(q - r, duration) == q * duration - Times(r, duration)
    ensures Times(r, duration) == r * duration
  {
  }

  lemma Fraction(a: real, duration: real)
    requires duration > 0.0
    ensures 0.0 <= a < 1.0 ==> 0.0 <= Times(a, duration) < duration
    ensures -1.0 < a <= 0.0 ==> -duration < Times(a, duration) <= 0.0
  {
    Distributes(1.0, a, duration);
    Distributes(0.0, a, duration);
    Distributes(a, -1.0, duration);
    assert Times(0.0, duration) == 0.0 && Times(-1.0, duration) == -duration;
    assert Times(1.0, duration) == duration && Times(a, duration) == a * duration;
    hide Times;
    Positive(a, duration);
    Positive(1.0 - a, duration);
    Positive(0.0 - a, duration);
    Positive(a - -1.0, duration);
  }

  lemma Positive(a: real, b: real)
    requires b > 0.0
    ensures a > 0.0 ==> Times(a, b) > 0.0
    ensures a == 0.0 ==> Times(a, b) == 0.0
  {
  }

  lemma RecordMeans(prev: Entry, curr: Entry)
    requires curr.time > prev.time
    ensures var r, duration := RecordOf(prev, curr), curr.time - prev.time;
            RateMeans(r.host, prev.host, curr.host, duration) && RateMeans(r.vm, prev.vm, curr.vm, duration)
  {
    var duration := curr.time - prev.time;
    RateOfMeans(prev.host, curr.host, duration);
    RateOfMeans(prev.vm, curr.vm, duration);
    hide RateMeans, RateOf;
  }

  lemma RateOfMeans(a: Stats, b: Stats, duration: real)
    requires duration > 0.0
    ensures RateMeans(RateOf(Minus(b, a), duration), a, b, duration)
  {
    IntPerSecond(b.packets - a.packets, duration);
    IntPerSecond(b.fast - a.fast, duration);
    IntPerSecond(b.slow - a.slow, duration);
    hide PerSecond, Int;
    var bytes := (b.bytes - a.bytes) as real;
    assert bytes * 8.0 / duration * duration == bytes * 8.0;
  }

  /** In a log whose times only go forward there is one record for every interval,
      and it tells the rates of that interval. */
  lemma {:induction false} EveryIntervalHasItsRates(log: seq<Entry>)
    requires forall i :: 0 < i < |log| ==> log[i].time > log[i - 1].time
    ensures |Rates(log)| == if log == [] then 0 else |log| - 1
    ensures forall i :: 0 < i < |log| ==>
              var r, duration := Rates(log)[i - 1], log[i].time - log[i - 1].time;
              && RateMeans(r.host, log[i - 1].host, log[i].host, duration)
              && RateMeans(r.vm, log[i - 1].vm, log[i].vm, duration)
  {
    if |log| > 1 {
      var n := |log| - 1;
      EveryIntervalHasItsRates(log[..n]);
      RecordMeans(log[n - 1], log[n]);
      hide RateMeans, RecordOf;
    }
  }

  function RecordedDrops(records: seq<Record>): (int, int) {
    if records == [] then (0, 0)
    else
      var n := |records| - 1;
      var sum := RecordedDrops(records[..n]);
      (sum.0 + records[n].host.drops, sum.1 + records[n].vm.drops)
  }

  /** The drops that fall in intervals without a record. */
  function SkippedDrops(log: seq<Entry>): (int, int) {
    if |log| < 2 then (0, 0)
    else
      var n := |log| - 1;
      var sum, d := SkippedDrops(log[..n]), ComputeDelta(log[n - 1], log[n]);
      if log[n].time > log[n - 1].time then sum else (sum.0 + d.host.drops, sum.1 + d.vm.drops)
  }

  /** No drop is lost or counted twice: those in the records and those in skipped
      intervals are together the ones between the first and the last report. */
  lemma {:induction false} DropsAreConserved(log: seq<Entry>)
    requires log != []
    ensures var recorded, skipped := RecordedDrops(Rates(log)), SkippedDrops(log);
            var d := ComputeDelta(log[0], log[|log| - 1]);
            recorded.0 + skipped.0 == d.host.drops && recorded.1 + skipped.1 == d.vm.drops
  {
    if |log| > 1 {
      var n := |log| - 1;
      DropsAreConserved(log[..n]);
      if log[n].time > log[n - 1].time {
        assert Rates(log)[..|Rates(log)| - 1] == Rates(log[..n]);
      } else {
        assert Rates(log) == Rates(log[..n]);
      }
    }
  }

  /** The counters of both endpoints only grow along the log. */
  predicate Growing(log: seq<Entry>) {
    forall i :: 0 < i < |log| ==> AtMost(log[i - 1].host, log[i].host) && AtMost(log[i - 1].vm, log[i].vm)
  }

  /** Between any two reports of such a log no delta is negative. */
  lemma {:induction false} GrowingDeltas(log: seq<Entry>, i: nat, j: nat)
    requires Growing(log) && i <= j < |log|
    ensures var d := ComputeDelta(log[i], log[j]); NotNegative(d.host) && NotNegative(d.vm)
    decreases j - i
  {
    if i < j {
      GrowingDeltas(log, i, j - 1);
    }
  }

  predicate NotNegative(d: Delta) {
    d.packets >= 0 && d.bytes >= 0 && d.drops >= 0 && d.fast >= 0 && d.slow >= 0
  }

  /** In a log of counters that only grow, skipping intervals can only lose drops. */
  lemma {:induction false} GrowingDropsAreBounded(log: seq<Entry>)
    requires log != [] && Growing(log)
    ensures var skipped := SkippedDrops(log); skipped.0 >= 0 && skipped.1 >= 0
    ensures var recorded, d := RecordedDrops(Rates(log)), ComputeDelta(log[0], log[|log| - 1]);
            recorded.0 <= d.host.drops && recorded.1 <= d.vm.drops
  {
    DropsAreConserved(log);
    if |log| > 1 {
      GrowingDropsAreBounded(log[..|log| - 1]);
    }
  }
}
