/**
 * The performance page's view model (ViewModels/PerformanceViewModel.cs):
 * the 60-sample usage histories, the averaging of logical-processor readings
 * onto physical cores and the per-core tiles, the drive and GPU card layout,
 * the preferred GPU, the restoration of the selected drive and GPU by name,
 * the chart series and its axis, and the uptime text.
 */
module Performance {
  import opened Wrappers
  import opened Text
  import opened Numerics
  import opened SystemInfo
  import Collections

  // ------------------------------------------------------------------ histories

  /** Every history keeps the newest 60 samples. */
  const HistoryCapacity: nat := 60

  /** The newest min(|s|, n) items of s. */
  function Newest(s: seq<real>, n: nat): (r: seq<real>)
    ensures |r| == if |s| < n then |s| else n
    ensures r == s[|s| - |r|..]
  {
    if |s| <= n then s else s[|s| - n..]
  }

  /** One tick of a history: List.Add, then RemoveAt(0) once the list holds more than 60. */
  function PushSample(h: seq<real>, x: real): (r: seq<real>)
    ensures r != [] && r[|r| - 1] == x
    ensures |h| <= HistoryCapacity ==> r == Newest(h + [x], HistoryCapacity)
  {
    var a := h + [x];
    if |a| > HistoryCapacity then a[1..] else a
  }

  /** The history after a run of ticks, one sample each. */
  function PushSamples(h: seq<real>, xs: seq<real>): (r: seq<real>)
    decreases |xs|
  {
    if xs == [] then h else PushSamples(PushSample(h, xs[0]), xs[1..])
  }

  lemma NewestOfNewest(a: seq<real>, b: seq<real>, n: nat)
    ensures Newest(Newest(a, n) + b, n) == Newest(a + b, n)
  {
    var na := Newest(a, n);
    var l := Newest(na + b, n);
    var r := Newest(a + b, n);
    assert |l| == |r|;
    forall i | 0 <= i < |l| ensures l[i] == r[i] {
      var back := |l| - i;
      assert l[i] == (na + b)[|na + b| - back];
      assert r[i] == (a + b)[|a + b| - back];
      if back > |b| {
        assert (na + b)[|na + b| - back] == na[|na| - (back - |b|)];
        assert (a + b)[|a + b| - back] == a[|a| - (back - |b|)];
      }
    }
  }

  lemma FirstThenRest(h: seq<real>, xs: seq<real>)
    requires xs != []
    ensures (h + [xs[0]]) + xs[1..] == h + xs
  {
    assert xs == [xs[0]] + xs[1..];
  }

  /**
   * A history fed one sample per tick from at most 60 samples holds exactly
   * the newest 60 of everything it has seen: it never exceeds the capacity,
   * and only the oldest samples are dropped.
   */
  lemma {:induction false} HistoryIsNewestWindow(h: seq<real>, xs: seq<real>)
    requires |h| <= HistoryCapacity
    ensures PushSamples(h, xs) == Newest(h + xs, HistoryCapacity)
    decreases |xs|
  {
    if xs == [] {
      assert h + xs == h;
    } else {
      var a, rest := h + [xs[0]], xs[1..];
      FirstThenRest(h, xs);
      var h1 := PushSample(h, xs[0]);
      HistoryIsNewestWindow(h1, rest);
      NewestOfNewest(a, rest, HistoryCapacity);
    }
  }

  /** One reading for a history keyed by name (a drive's or a GPU's Name, "" for none). */
  datatype Sample = Sample(key: string, value: real)

  /** One step of the foreach over drives or GPUs: TryGetValue, else a new empty list, then PushSample. */
  function PushKeyed(m: map<string, seq<real>>, s: Sample): (r: map<string, seq<real>>)
    ensures s.key in r && forall k :: k in m && k != s.key ==> k in r && r[k] == m[k]
  {
    m[s.key := PushSample(if s.key in m then m[s.key] else [], s.value)]
  }

  /** The dictionary after the whole foreach. */
  function PushKeyedAll(m: map<string, seq<real>>, samples: seq<Sample>): (r: map<string, seq<real>>)
    decreases |samples|
  {
    if samples == [] then m
    else PushKeyed(PushKeyedAll(m, samples[..|samples| - 1]), samples[|samples| - 1])
  }

  /** One more sample: the dictionary after the prefix, with that sample pushed. */
  lemma PushKeyedAllSnoc(m: map<string, seq<real>>, s: seq<Sample>, i: nat)
    requires i < |s|
    ensures PushKeyedAll(m, s[..i + 1]) == PushKeyed(PushKeyedAll(m, s[..i]), s[i])
  {
    assert s[..i + 1][..i] == s[..i];
  }

  /** One pass of the foreach: the list under the key (a new one if missing) gets the sample, then loses its oldest past 60. */
  method RecordSample(m: map<string, seq<real>>, s: Sample) returns (r: map<string, seq<real>>)
    ensures r == PushKeyed(m, s)
  {
    var list := if s.key in m then m[s.key] else [];
    list := list + [s.value];
    if |list| > HistoryCapacity {
      list := list[1..];
    }
    r := m[s.key := list];
  }

  /** The foreach over one tick's samples, one RecordSample per sample in order. */
  method RecordSamples(m: map<string, seq<real>>, s: seq<Sample>) returns (r: map<string, seq<real>>)
    ensures r == PushKeyedAll(m, s)
    ensures Bounded(m) ==> Bounded(r)
  {
    r := m;
    var i := 0;
    while i < |s|
      invariant 0 <= i <= |s|
      invariant r == PushKeyedAll(m, s[..i])
    {
      PushKeyedAllSnoc(m, s, i);
      r := RecordSample(r, s[i]);
      i := i + 1;
    }
    assert s[..i] == s;
    if Bounded(m) {
      KeyedHistoriesBounded(m, s);
    }
  }

  predicate Bounded(m: map<string, seq<real>>) {
    forall k :: k in m ==> |m[k]| <= HistoryCapacity
  }

  function Keys(samples: seq<Sample>): set<string> {
    set i | 0 <= i < |samples| :: samples[i].key
  }

  lemma KeysOfSnoc(samples: seq<Sample>)
    requires samples != []
    ensures Keys(samples) == Keys(samples[..|samples| - 1]) + {samples[|samples| - 1].key}
  {
    var init := samples[..|samples| - 1];
    forall x | x in Keys(samples) ensures x in Keys(init) + {samples[|samples| - 1].key} {
      var i :| 0 <= i < |samples| && samples[i].key == x;
      if i < |samples| - 1 { assert init[i] == samples[i]; }
    }
    forall x | x in Keys(init) ensures x in Keys(samples) {
      var i :| 0 <= i < |init| && init[i].key == x;
      assert samples[i] == init[i];
    }
  }

  /**
   * The keyed histories stay within 60, the keys are the old ones plus the
   * names seen, and a history whose name was not seen is untouched.
   */
  lemma {:induction false} KeyedHistoriesBounded(m: map<string, seq<real>>, samples: seq<Sample>)
    requires Bounded(m)
    ensures var r := PushKeyedAll(m, samples);
      && Bounded(r)
      && r.Keys == m.Keys + Keys(samples)
      && (forall k :: k in m && k !in Keys(samples) ==> r[k] == m[k])
    decreases |samples|
  {
    if samples != [] {
      KeyedHistoriesBounded(m, samples[..|samples| - 1]);
      KeysOfSnoc(samples);
    }
  }

  /** The newest entry of a keyed history is the value of the last sample with its name. */
  lemma {:induction false} KeyedHistoriesNewest(m: map<string, seq<real>>, samples: seq<Sample>, i: nat)
    requires i < |samples|
    requires forall j :: i < j < |samples| ==> samples[j].key != samples[i].key
    ensures var r := PushKeyedAll(m, samples);
      samples[i].key in r && r[samples[i].key] != [] && r[samples[i].key][|r[samples[i].key]| - 1] == samples[i].value
    decreases |samples|
  {
    var init, last := samples[..|samples| - 1], samples[|samples| - 1];
    var prev := PushKeyedAll(m, init);
    assert PushKeyedAll(m, samples) == PushKeyed(prev, last);
    if i < |samples| - 1 {
      assert init[i] == samples[i];
      forall j | i < j < |init| ensures init[j].key != init[i].key {
        assert init[j] == samples[j];
      }
      KeyedHistoriesNewest(m, init, i);
      assert last.key != samples[i].key;
      assert PushKeyed(prev, last)[samples[i].key] == prev[samples[i].key];
    } else {
      var h := PushSample(if last.key in prev then prev[last.key] else [], last.value);
      assert PushKeyed(prev, last)[last.key] == h;
    }
  }

  function DriveSamples(drives: seq<StorageInfo>): (r: seq<Sample>)
    ensures |r| == |drives|
    ensures forall i :: 0 <= i < |drives| ==> r[i] == Sample(drives[i].name, drives[i].usage)
  {
    seq(|drives|, i requires 0 <= i < |drives| => Sample(drives[i].name, drives[i].usage))
  }

  function GpuSamples(gpus: seq<GpuInfo>): (r: seq<Sample>)
    ensures |r| == |gpus|
    ensures forall i :: 0 <= i < |gpus| ==> r[i] == Sample(gpus[i].name, gpus[i].usage)
  {
    seq(|gpus|, i requires 0 <= i < |gpus| => Sample(gpus[i].name, gpus[i].usage))
  }

  /** A card's UsageHistory: a copy of the history under its name, empty when there is none. */
  function HistoryOf(m: map<string, seq<real>>, name: string): (h: seq<real>)
  {
    if name in m then m[name] else []
  }

  // ------------------------------------------------------------- per-core usage

  /** Logical threads averaged for one core: logical / physical when that divides evenly, else 1. */
  function ThreadsPerCore(physical: int, logical: int): (t: nat)
    requires physical > 0
    ensures t >= 1
    ensures logical > 0 && logical % physical == 0 ==> t * physical == logical
    ensures !(logical > 0 && logical % physical == 0) ==> t == 1
  {
    if logical > 0 && logical % physical == 0 then
      (if logical / physical > 1 then logical / physical else 1)
    else 1
  }

  /** The finite reading at `index`, if the list has one there. */
  function Reading(src: seq<Double>, index: nat): (r: Option<real>)
    ensures r.Some? <==> index < |src| && src[index].Finite?
    ensures r.Some? ==> r.value == src[index].value
  {
    if index < |src| && src[index].Finite? then Some(src[index].value) else None
  }

  /** The sum of the finite readings among the `n` indexes from `start`. */
  function ReadingSum(src: seq<Double>, start: nat, n: nat): (s: real)
    decreases n
  {
    if n == 0 then 0.0
    else ReadingSum(src, start, n - 1) + Reading(src, start + n - 1).GetOr(0.0)
  }

  /** How many of the `n` indexes from `start` hold a finite reading. */
  function ReadingCount(src: seq<Double>, start: nat, n: nat): (c: nat)
    ensures c <= n
    decreases n
  {
    if n == 0 then 0
    else ReadingCount(src, start, n - 1) + (if Reading(src, start + n - 1).Some? then 1 else 0)
  }

  /** The mean of a core's finite readings, 0 for none. */
  function CoreAverage(src: seq<Double>, core: nat, threads: nat): (avg: real)
  {
    var n := ReadingCount(src, core * threads, threads);
    if n > 0 then ReadingSum(src, core * threads, threads) / n as real else 0.0
  }

  /**
   * AggregateLogicalToPhysical: the list itself when the physical count is
   * unknown or already matches; otherwise one value per physical core, the
   * mean of its threads' finite readings clamped to [0, 100].
   */
  function Aggregated(src: seq<Double>, physical: int, logical: int): (r: seq<Double>)
    ensures physical <= 0 || |src| == physical ==> r == src
    ensures physical > 0 && |src| != physical ==> |r| == physical
    ensures physical > 0 && |src| != physical ==>
      forall c :: 0 <= c < physical ==> r[c].Finite? && 0.0 <= r[c].value <= 100.0
  {
    if physical <= 0 || |src| == physical then src
    else
      var t := ThreadsPerCore(physical, logical);
      seq(physical, c requires 0 <= c < physical => Finite(Clamp(CoreAverage(src, c, t), 0.0, 100.0)))
  }

  lemma {:induction false} ReadingsAtLeast(src: seq<Double>, start: nat, n: nat, lo: real)
    requires forall k :: start <= k < start + n && Reading(src, k).Some? ==> lo <= Reading(src, k).value
    ensures ReadingCount(src, start, n) as real * lo <= ReadingSum(src, start, n)
    decreases n
  {
    if n > 0 {
      ReadingsAtLeast(src, start, n - 1, lo);
      var c := ReadingCount(src, start, n - 1) as real;
      var r := Reading(src, start + n - 1);
      if r.Some? {
        assert ReadingCount(src, start, n) as real == c + 1.0;
        assert (c + 1.0) * lo == c * lo + lo;
      }
    }
  }

  lemma {:induction false} ReadingsAtMost(src: seq<Double>, start: nat, n: nat, hi: real)
    requires forall k :: start <= k < start + n && Reading(src, k).Some? ==> Reading(src, k).value <= hi
    ensures ReadingSum(src, start, n) <= ReadingCount(src, start, n) as real * hi
    decreases n
  {
    if n > 0 {
      ReadingsAtMost(src, start, n - 1, hi);
      var c := ReadingCount(src, start, n - 1) as real;
      var r := Reading(src, start + n - 1);
      if r.Some? {
        assert ReadingCount(src, start, n) as real == c + 1.0;
        assert (c + 1.0) * hi == c * hi + hi;
      }
    }
  }

  /** The sum of a core's finite readings lies between their count times the least and times the greatest. */
  lemma ReadingsWithin(src: seq<Double>, start: nat, n: nat, lo: real, hi: real)
    requires lo <= hi
    requires forall k :: start <= k < start + n && Reading(src, k).Some? ==> lo <= Reading(src, k).value <= hi
    ensures ReadingCount(src, start, n) as real * lo <= ReadingSum(src, start, n) <= ReadingCount(src, start, n) as real * hi
  {
    ReadingsAtLeast(src, start, n, lo);
    ReadingsAtMost(src, start, n, hi);
  }

  /** A quotient of a sum by a positive count lies within the per-item bounds. */
  lemma QuotientWithin(s: real, n: real, lo: real, hi: real)
    requires n > 0.0 && n * lo <= s <= n * hi
    ensures lo <= s / n <= hi
  {
  }

  /** A core's mean lies between the least and the greatest of its finite readings. */
  lemma AverageWithinReadings(src: seq<Double>, core: nat, threads: nat, lo: real, hi: real)
    requires lo <= hi
    requires ReadingCount(src, core * threads, threads) > 0
    requires forall k :: core * threads <= k < core * threads + threads && Reading(src, k).Some? ==>
      lo <= Reading(src, k).value <= hi
    ensures lo <= CoreAverage(src, core, threads) <= hi
  {
    var n := ReadingCount(src, core * threads, threads);
    var s := ReadingSum(src, core * threads, threads);
    ReadingsWithin(src, core * threads, threads, lo, hi);
    QuotientWithin(s, n as real, lo, hi);
  }

  /** Readings outside a core's threads do not change its value. */
  lemma {:induction false} ReadingsOfOwnThreads(src: seq<Double>, other: seq<Double>, start: nat, n: nat)
    requires forall k :: start <= k < start + n ==> Reading(src, k) == Reading(other, k)
    ensures ReadingSum(src, start, n) == ReadingSum(other, start, n)
    ensures ReadingCount(src, start, n) == ReadingCount(other, start, n)
    decreases n
  {
    if n > 0 {
      ReadingsOfOwnThreads(src, other, start, n - 1);
    }
  }

  /** With one thread per core, a core whose reading is a finite percentage keeps it. */
  lemma OneThreadPerCore(src: seq<Double>, physical: int, logical: int, c: nat)
    requires physical > 0 && |src| != physical && c < physical
    requires ThreadsPerCore(physical, logical) == 1
    requires c < |src| && src[c].Finite? && 0.0 <= src[c].value <= 100.0
    ensures Aggregated(src, physical, logical)[c] == src[c]
  {
    assert ReadingCount(src, c, 1) == 1;
    assert ReadingSum(src, c, 1) == src[c].value;
  }

  /** The inner loop of AggregateLogicalToPhysical: the sum and count of one core's finite readings. */
  method SumThreadReadings(src: seq<Double>, start: nat, threads: nat) returns (sum: real, count: nat)
    ensures sum == ReadingSum(src, start, threads)
    ensures count == ReadingCount(src, start, threads)
  {
    sum := 0.0;
    count := 0;
    var t := 0;
    while t < threads
      invariant 0 <= t <= threads
      invariant sum == ReadingSum(src, start, t)
      invariant count == ReadingCount(src, start, t)
    {
      var idx := start + t;
      if idx < |src| {
        var v := src[idx];
        if v.Finite? {
          sum := sum + v.value;
          count := count + 1;
        }
      }
      t := t + 1;
    }
  }

  /** AggregateLogicalToPhysical, with its loop over cores and its loop over each core's threads. */
  method AggregateLogicalToPhysical(src: seq<Double>, physicalCores: int, logicalProcessors: int)
    returns (result: seq<Double>)
    ensures result == Aggregated(src, physicalCores, logicalProcessors)
  {
    if physicalCores <= 0 {
      return src;
    }
    if |src| == physicalCores {
      return src;
    }
    var threadsPerCore := 1;
    if logicalProcessors > 0 && logicalProcessors % physicalCores == 0 {
      threadsPerCore := if logicalProcessors / physicalCores > 1 then logicalProcessors / physicalCores else 1;
    }
    assert threadsPerCore == ThreadsPerCore(physicalCores, logicalProcessors);
    result := [];
    var c := 0;
    while c < physicalCores
      invariant 0 <= c <= physicalCores
      invariant |result| == c
      invariant forall k :: 0 <= k < c ==>
        result[k] == Finite(Clamp(CoreAverage(src, k, threadsPerCore), 0.0, 100.0))
    {
      var sum, count := SumThreadReadings(src, c * threadsPerCore, threadsPerCore);
      var avg := if count > 0 then sum / count as real else 0.0;
      result := result + [Finite(Clamp(avg, 0.0, 100.0))];
      c := c + 1;
    }
  }

  /** The physical count the tiles use: Math.Max(1, PhysicalCoreCount > 0 ? PhysicalCoreCount : 0). */
  function PhysicalOf(physicalCount: int): (p: int)
    ensures p >= 1
    ensures physicalCount > 0 ==> p == physicalCount
  {
    if physicalCount > 1 then physicalCount else 1
  }

  /** Math.Max(1, LogicalProcessorCount > 0 ? LogicalProcessorCount : the number of readings). */
  function LogicalOf(logicalCount: int, readings: nat): (l: int)
    ensures l >= 1
  {
    var l := if logicalCount > 0 then logicalCount else readings;
    if l > 1 then l else 1
  }

  /** Math.Max(physical > 0 ? physical : list.Count, list.Count). */
  function TargetCount(physical: int, listCount: nat): (n: nat)
    ensures n >= listCount
  {
    var a := if physical > 0 then physical else listCount;
    if a > listCount then a else listCount
  }

  /** The usage a tile shows: list[i] when there is one, else 0. */
  function TileUsage(list: seq<Double>, i: nat): (u: Double)
    ensures i < |list| ==> u == list[i]
  {
    if i < |list| then list[i] else Finite(0.0)
  }

  /**
   * The tile count is always the physical count of the update (at least 1),
   * and every tile has a value of the aggregated list: the averaging always
   * produces exactly `physical` values. An unknown physical count therefore
   * gives a single tile.
   */
  lemma TileCountIsPhysical(perCore: seq<Double>, physicalCount: int, logicalCount: int)
    ensures var physical := PhysicalOf(physicalCount);
      var list := Aggregated(perCore, physical, LogicalOf(logicalCount, |perCore|));
      |list| == physical && TargetCount(physical, |list|) == physical
    ensures physicalCount <= 0 ==> TargetCount(1, |Aggregated(perCore, 1, LogicalOf(logicalCount, |perCore|))|) == 1
  {
  }

  // ------------------------------------------------------------------- layout

  /** Drives.Count >= 5 && Drives.Count % 2 == 1. */
  predicate OddFiveOrMore(n: nat) {
    n >= 5 && n % 2 == 1
  }

  /**
   * The drive columns (DrivesLeftColumn, DrivesRightColumn): with the flag
   * set and more than one drive, the drives after the first, the left column
   * taking the first (remaining + 1) / 2; otherwise both empty.
   */
  function ColumnSplit(d: seq<StorageInfo>, oddFiveOrMore: bool): (cols: (seq<StorageInfo>, seq<StorageInfo>))
    ensures oddFiveOrMore && |d| > 1 ==> |cols.0| == |d| / 2 && cols.0 + cols.1 == d[1..]
    ensures !(oddFiveOrMore && |d| > 1) ==> cols.0 == [] && cols.1 == []
  {
    if oddFiveOrMore && |d| > 1 then
      var leftCount := (|d| - 1 + 1) / 2;
      assert d[1..1 + leftCount] + d[1 + leftCount..] == d[1..];
      (d[1..1 + leftCount], d[1 + leftCount..])
    else ([], [])
  }

  /** For an odd count of at least five, the drives under the top one split into two equal columns. */
  lemma OddColumnsBalanced(d: seq<StorageInfo>)
    requires OddFiveOrMore(|d|)
    ensures var cols := ColumnSplit(d, true);
      |cols.0| == |cols.1| == (|d| - 1) / 2 && cols.0 + cols.1 == d[1..]
  {
    var cols := ColumnSplit(d, true);
    assert |cols.0| + |cols.1| == |d| - 1;
  }

  /** ShowDefaultDriveList: exactly when neither the four-drive grid nor the columned layout applies. */
  function ShowDefaultDriveList(n: nat): (b: bool)
    ensures b <==> n != 4 && !OddFiveOrMore(n)
    ensures b ==> n < 5 || n % 2 == 0
  {
    !(n == 4 || OddFiveOrMore(n))
  }

  /** The card title of the i-th drive: "Disk i", then the first word of the name in brackets when there is one. */
  function DriveCardTitle(i: nat, name: string): (title: string)
    ensures StartsWith(title, "Disk " + NatToString(i))
  {
    var parts := SplitOnce(name, ' ');
    var letter := if |parts| > 0 then Trim(parts[0]) else [];
    var head := "Disk " + NatToString(i);
    assert (head + (if IsBlank(letter) then [] else " (" + letter + ")"))[..|head|] == head;
    head + (if IsBlank(letter) then [] else " (" + letter + ")")
  }

  /** A drive named by a letter word and a label is titled by its index and the letter. */
  lemma DriveCardTitleOfLetter(i: nat, letter: string, caption: string)
    requires letter != [] && ' ' !in letter
    requires !IsWhiteSpace(letter[0]) && !IsWhiteSpace(letter[|letter| - 1])
    ensures DriveCardTitle(i, letter + " " + caption) == "Disk " + NatToString(i) + " (" + letter + ")"
  {
    var name := letter + " " + caption;
    assert IndexOfChar(name, ' ') == |letter| by {
      assert name[|letter|] == ' ';
      forall k | 0 <= k < |letter| ensures name[k] != ' ' {
        assert name[k] == letter[k];
      }
    }
    assert name[..|letter|] == letter;
    var parts := SplitOnce(name, ' ');
    assert parts[0] == letter;
    TrimOfTrimmed(letter);
    assert !IsBlank(letter) by { assert !IsWhiteSpace(letter[0]); }
  }

  /** "GPU i". */
  function GpuCardTitle(i: nat): (title: string)
    ensures StartsWith(title, "GPU ")
  {
    "GPU " + NatToString(i)
  }

  // ---------------------------------------------------------- preferred GPU

  /**
   * IsDiscreteGpuName: the upper-cased name names NVIDIA, GeForce, RTX, GTX,
   * Radeon or AMD; a blank name is not discrete, and the later checks for
   * "MICROSOFT BASIC" and "INTEL" answer false like the default.
   */
  predicate IsDiscreteGpuName(name: string) {
    var n := ToUpper(name);
    if IsBlank(n) then false
    else if Contains(n, "NVIDIA") || Contains(n, "GEFORCE") || Contains(n, "RTX") || Contains(n, "GTX") then true
    else if Contains(n, "RADEON") || Contains(n, "AMD") then true
    else false
  }

  /** s.Split(c, 2, StringSplitOptions.RemoveEmptyEntries): the text before and after the first c, empty pieces dropped. */
  function SplitOnce(s: string, c: char): (parts: seq<string>)
    ensures |parts| <= 2
    ensures forall k :: 0 <= k < |parts| ==> parts[k] != []
  {
    var k := IndexOfChar(s, c);
    var parts := if k == -1 then RemoveEmpty([s]) else RemoveEmpty([s[..k], s[k + 1..]]);
    assert forall k :: 0 <= k < |parts| ==> parts[k] in parts;
    parts
  }

  /** The number before a two-letter unit at the end of `text` (any case), trimmed and parsed. */
  function SizeIn(text: string, unit: string): (r: Option<real>)
    requires |unit| == 2
  {
    if EndsWithIgnoreCase(text, unit) then ParseReal(Trim(text[..|text| - 2])) else None
  }

  /**
   * ExtractTotalVideoMemoryGb: the total of a "used / total" memory text in
   * GB (a TB total times 1000); failing that the dedicated memory in GB;
   * failing that 0.
   */
  function TotalVideoMemoryGb(memory: string, dedicatedMemory: string): (gb: real)
  {
    var parts := SplitOnce(memory, '/');
    var fromTotal :=
      if |parts| == 2 then
        var total := Trim(parts[1]);
        match SizeIn(total, "GB")
        case Some(gb) => Some(gb)
        case None =>
          match SizeIn(total, "TB")
          case Some(tb) => Some(tb * 1000.0)
          case None => None
      else None;
    match fromTotal
    case Some(gb) => gb
    case None => SizeIn(dedicatedMemory, "GB").GetOr(0.0)
  }

  /** Discrete GPUs rank by total memory, then usage. */
  function MemoryRank(g: GpuInfo): Collections.Rank {
    Collections.Rank(TotalVideoMemoryGb(g.memory, g.dedicatedMemory), g.usage)
  }

  /** OrderByDescending(g => g.Usage). */
  function UsageRank(g: GpuInfo): Collections.Rank {
    Collections.Rank(g.usage, 0.0)
  }

  function DiscreteGpus(gpus: seq<GpuInfo>): (r: seq<GpuInfo>)
    ensures forall k :: 0 <= k < |r| ==> r[k] in gpus && IsDiscreteGpuName(r[k].name)
    ensures forall k :: 0 <= k < |gpus| && IsDiscreteGpuName(gpus[k].name) ==> gpus[k] in r
  {
    Collections.Filter(gpus, (g: GpuInfo) => IsDiscreteGpuName(g.name))
  }

  /** The GPU with the highest usage, the first of equals; none for no GPUs. */
  function BusiestGpu(gpus: seq<GpuInfo>): (r: Option<GpuInfo>)
    ensures r.None? <==> gpus == []
    ensures r.Some? ==> r.value in gpus && forall k :: 0 <= k < |gpus| ==> gpus[k].usage <= r.value.usage
  {
    if gpus == [] then None
    else
      var i := Collections.FirstHighest(gpus, UsageRank);
      assert forall k :: 0 <= k < |gpus| ==> !Collections.Outranks(UsageRank(gpus[k]), UsageRank(gpus[i]));
      Some(gpus[i])
  }

  /**
   * ChoosePreferredGpu: none for no GPUs; otherwise the discrete GPU with the
   * most total memory, then the highest usage; with no discrete GPU the
   * busiest one.
   */
  function ChoosePreferredGpu(gpus: seq<GpuInfo>): (r: Option<GpuInfo>)
  {
    if gpus == [] then None
    else
      var discrete := DiscreteGpus(gpus);
      if discrete != [] then Some(discrete[Collections.FirstHighest(discrete, MemoryRank)])
      else BusiestGpu(gpus)
  }

  lemma ChoosePreferredGpuIsPreferred(gpus: seq<GpuInfo>)
    ensures var r := ChoosePreferredGpu(gpus);
      && (r.None? <==> gpus == [])
      && (r.Some? ==> r.value in gpus)
      && ((exists k :: 0 <= k < |gpus| && IsDiscreteGpuName(gpus[k].name)) ==>
            && IsDiscreteGpuName(r.value.name)
            && forall k :: 0 <= k < |gpus| && IsDiscreteGpuName(gpus[k].name) ==>
                 !Collections.Outranks(MemoryRank(gpus[k]), MemoryRank(r.value)))
      && ((forall k :: 0 <= k < |gpus| ==> !IsDiscreteGpuName(gpus[k].name)) ==>
            r.Some? ==> forall k :: 0 <= k < |gpus| ==> gpus[k].usage <= r.value.usage)
  {
    if gpus != [] {
      var discrete := DiscreteGpus(gpus);
      if discrete != [] {
        var i := Collections.FirstHighest(discrete, MemoryRank);
        forall k | 0 <= k < |gpus| && IsDiscreteGpuName(gpus[k].name)
          ensures !Collections.Outranks(MemoryRank(gpus[k]), MemoryRank(discrete[i]))
        {
          assert gpus[k] in discrete;
          var j :| 0 <= j < |discrete| && discrete[j] == gpus[k];
        }
      }
    }
  }

  // -------------------------------------------------------------- selection

  /** The first name equal to a non-blank key ignoring case. */
  function ByName(names: seq<string>, key: string): (r: Option<nat>)
    ensures r.Some? ==> r.value < |names|
  {
    if IsBlank(key) then None
    else Collections.FirstWhere(names, (n: string) => EqualsIgnoreCase(n, key))
  }

  lemma ByNameIsFirst(names: seq<string>, key: string)
    ensures var r := ByName(names, key);
      && (r.None? <==> IsBlank(key) || forall k :: 0 <= k < |names| ==> !EqualsIgnoreCase(names[k], key))
      && (r.Some? ==> EqualsIgnoreCase(names[r.value], key))
      && (r.Some? ==> forall k :: 0 <= k < r.value ==> !EqualsIgnoreCase(names[k], key))
  {
    if !IsBlank(key) {
      Collections.FirstWhereIsFirst(names, (n: string) => EqualsIgnoreCase(n, key));
    }
  }

  function DriveNames(d: seq<StorageInfo>): (names: seq<string>)
    ensures |names| == |d| && forall i :: 0 <= i < |d| ==> names[i] == d[i].name
  {
    seq(|d|, i requires 0 <= i < |d| => d[i].name)
  }

  function GpuNames(g: seq<GpuInfo>): (names: seq<string>)
    ensures |names| == |g| && forall i :: 0 <= i < |g| ==> names[i] == g[i].name
  {
    seq(|g|, i requires 0 <= i < |g| => g[i].name)
  }

  /** The drive RestoreSelectedDrive settles on: the first named by the key, else the first drive; none for no drives. */
  function DriveChoice(d: seq<StorageInfo>, key: string): (r: Option<StorageInfo>)
  {
    if d == [] then None
    else
      match ByName(DriveNames(d), key)
      case Some(i) => Some(d[i])
      case None => Some(d[0])
  }

  /** The GPU RestoreSelectedGpu settles on: the first named by the key, else the preferred GPU; none for no GPUs. */
  function GpuChoice(g: seq<GpuInfo>, key: string): (r: Option<GpuInfo>)
  {
    if g == [] then None
    else
      match ByName(GpuNames(g), key)
      case Some(i) => Some(g[i])
      case None => ChoosePreferredGpu(g)
  }

  lemma DriveChoiceIsNamed(d: seq<StorageInfo>, key: string)
    ensures var r := DriveChoice(d, key);
      && (r.None? <==> d == [])
      && (r.Some? ==> r.value in d)
      && (!IsBlank(key) && (exists k :: 0 <= k < |d| && EqualsIgnoreCase(d[k].name, key)) ==>
            EqualsIgnoreCase(r.value.name, key))
      && (d != [] && (IsBlank(key) || forall k :: 0 <= k < |d| ==> !EqualsIgnoreCase(d[k].name, key)) ==>
            r == Some(d[0]))
  {
    ByNameIsFirst(DriveNames(d), key);
    var names := DriveNames(d);
    if !IsBlank(key) && (exists k :: 0 <= k < |d| && EqualsIgnoreCase(d[k].name, key)) {
      var k :| 0 <= k < |d| && EqualsIgnoreCase(d[k].name, key);
      assert EqualsIgnoreCase(names[k], key);
    }
  }

  lemma GpuChoiceIsNamed(g: seq<GpuInfo>, key: string)
    ensures var r := GpuChoice(g, key);
      && (r.None? <==> g == [])
      && (r.Some? ==> r.value in g)
      && (!IsBlank(key) && (exists k :: 0 <= k < |g| && EqualsIgnoreCase(g[k].name, key)) ==>
            EqualsIgnoreCase(r.value.name, key))
      && (g != [] && (IsBlank(key) || forall k :: 0 <= k < |g| ==> !EqualsIgnoreCase(g[k].name, key)) ==>
            r == ChoosePreferredGpu(g))
  {
    ByNameIsFirst(GpuNames(g), key);
    ChoosePreferredGpuIsPreferred(g);
    var names := GpuNames(g);
    if !IsBlank(key) && (exists k :: 0 <= k < |g| && EqualsIgnoreCase(g[k].name, key)) {
      var k :| 0 <= k < |g| && EqualsIgnoreCase(g[k].name, key);
      assert EqualsIgnoreCase(names[k], key);
    }
  }

  /**
   * What an [ObservableProperty] setter leaves in its field: the old value
   * when EqualityComparer<T>.Default calls the two equal (both null, or the
   * item's Equals), the new one otherwise.
   */
  predicate SameDrive(current: Option<StorageInfo>, value: Option<StorageInfo>) {
    (current.None? && value.None?) || (current.Some? && current.value.EqualsOrNull(value))
  }

  predicate SameGpu(current: Option<GpuInfo>, value: Option<GpuInfo>) {
    (current.None? && value.None?) || (current.Some? && current.value.EqualsOrNull(value))
  }

  /** IsSelected of every card: its name equals the selected one's ignoring case ("" for none). */
  function SelectionFlags(names: seq<string>, selected: string): (flags: seq<bool>)
    ensures |flags| == |names|
    ensures forall i :: 0 <= i < |names| ==> (flags[i] <==> EqualsIgnoreCase(names[i], selected))
  {
    seq(|names|, i requires 0 <= i < |names| => EqualsIgnoreCase(names[i], selected))
  }

  function DriveNameOr(d: Option<StorageInfo>): string {
    if d.Some? then d.value.name else ""
  }

  function GpuNameOr(g: Option<GpuInfo>): string {
    if g.Some? then g.value.name else ""
  }

  /** IsSelectedDrive: the card's name equals the selected drive's ignoring case. */
  function IsSelectedDrive(selected: Option<StorageInfo>, drive: Option<StorageInfo>): (b: bool)
    ensures drive.None? ==> !b
    ensures drive.Some? && selected.Some? && selected.value == drive.value ==> b
  {
    drive.Some? && EqualsIgnoreCase(DriveNameOr(selected), drive.value.name)
  }

  // --------------------------------------------------------- chart and axis

  /** A point of the network chart: the mean of upload and download, a missing entry counting 0. */
  function NetworkPoint(up: seq<real>, down: seq<real>, i: nat): real {
    ((if i < |up| then up[i] else 0.0) + (if i < |down| then down[i] else 0.0)) / 2.0
  }

  function NetworkSeriesOf(up: seq<real>, down: seq<real>): (series: seq<real>)
    ensures |series| == if |up| >= |down| then |up| else |down|
  {
    var n := if |up| >= |down| then |up| else |down|;
    seq(n, i requires 0 <= i < n => NetworkPoint(up, down, i))
  }

  /** The network loop of GetSelectedHistory. */
  method NetworkSeries(up: seq<real>, down: seq<real>) returns (series: seq<real>)
    ensures series == NetworkSeriesOf(up, down)
  {
    var n := if |up| >= |down| then |up| else |down|;
    series := [];
    var i := 0;
    while i < n
      invariant 0 <= i <= n
      invariant |series| == i
      invariant forall k :: 0 <= k < i ==> series[k] == NetworkPoint(up, down, k)
    {
      var u := if i < |up| then up[i] else 0.0;
      var d := if i < |down| then down[i] else 0.0;
      series := series + [(u + d) / 2.0];
      i := i + 1;
    }
  }

  /** The series of equal histories is that history; with only one of them, half of it. */
  lemma NetworkSeriesCombines(up: seq<real>, down: seq<real>)
    ensures up == down ==> NetworkSeriesOf(up, down) == up
    ensures down == [] ==> forall i :: 0 <= i < |up| ==> NetworkSeriesOf(up, down)[i] == up[i] / 2.0
    ensures forall i :: 0 <= i < |up| && i < |down| ==>
      Min(up[i], down[i]) <= NetworkSeriesOf(up, down)[i] <= Max(up[i], down[i])
  {
  }

  /** The largest finite sample, 0 when none is positive. */
  function PeakOf(hist: seq<Double>): (m: real)
    ensures m >= 0.0
    ensures forall i :: 0 <= i < |hist| && hist[i].Finite? ==> hist[i].value <= m
    ensures m == 0.0 || exists i :: 0 <= i < |hist| && hist[i] == Finite(m)
    decreases |hist|
  {
    if hist == [] then 0.0
    else
      var rest := PeakOf(hist[..|hist| - 1]);
      var last := hist[|hist| - 1];
      assert forall i :: 0 <= i < |hist| - 1 ==> hist[i] == hist[..|hist| - 1][i];
      if last.Finite? && last.value > rest then last.value else rest
  }

  /**
   * The top of the network axis: 1.1 times the largest finite sample, 1 when
   * that is not positive. It lies strictly above every finite sample.
   */
  method NetworkAxisTop(hist: seq<Double>) returns (top: real)
    ensures top == (if PeakOf(hist) <= 0.0 then 1.0 else PeakOf(hist) * 1.1)
    ensures top > 0.0 && forall i :: 0 <= i < |hist| && hist[i].Finite? ==> hist[i].value < top
  {
    var vmax := 0.0;
    var i := 0;
    while i < |hist|
      invariant 0 <= i <= |hist|
      invariant vmax == PeakOf(hist[..i])
    {
      assert hist[..i + 1][..i] == hist[..i];
      var v := hist[i];
      if v.Finite? && v.value > vmax {
        vmax := v.value;
      }
      i := i + 1;
    }
    assert hist[..i] == hist;
    top := if vmax <= 0.0 then 1.0 else vmax * 1.1;
  }

  /** FormatAxisRate: the rate in bits per second with the largest unit it reaches, one decimal from Mbps up. */
  datatype RateLabel = RateLabel(amount: real, decimals: nat, unit: string)

  function FormatAxisRate(mbps: real): (rate: RateLabel)
    ensures rate.amount * (if rate.unit == "Gbps" then 1000000000.0
                            else if rate.unit == "Mbps" then 1000000.0
                            else if rate.unit == "Kbps" then 1000.0 else 1.0) == mbps * 1000000.0
    ensures rate.unit == "Gbps" <==> mbps * 1000000.0 >= 1000000000.0
    ensures rate.unit == "bps" <==> mbps * 1000000.0 < 1000.0
  {
    var bps := mbps * 1000000.0;
    if bps >= 1000000000.0 then RateLabel(bps / 1000000000.0, 1, "Gbps")
    else if bps >= 1000000.0 then RateLabel(bps / 1000000.0, 1, "Mbps")
    else if bps >= 1000.0 then RateLabel(bps / 1000.0, 0, "Kbps")
    else RateLabel(bps, 0, "bps")
  }

  // ------------------------------------------------------------------ uptime

  const MillisPerSecond: nat := 1000
  const SecondsPerDay: nat := 86400

  /** D2: two digits, a leading zero below 10. */
  function Pad2(n: nat): (s: string)
    requires n < 100
    ensures |s| == 2 && AllDigits(s) && DigitsValue(s) == n
  {
    if n < 10 then
      var s := ['0', DigitChar(n)];
      assert s[..1] == ['0'] && s[..1][..0] == [];
      assert DigitsValue(s[..1]) == 0;
      s
    else
      var s := NatToString(n);
      assert |s| == 2 by {
        if |s| > 2 { DigitsValueBound(s); PowerBound(s); }
      }
      s
  }

  lemma PowerBound(s: string)
    requires AllDigits(s) && |s| > 2 && s[0] != '0'
    ensures DigitsValue(s) >= 100
  {
    LeadingDigit(s);
  }

  lemma {:induction false} LeadingDigit(s: string)
    requires AllDigits(s) && |s| >= 1 && s[0] != '0'
    ensures DigitsValue(s) >= Pow10(|s| - 1)
    decreases |s|
  {
    if |s| > 1 {
      LeadingDigit(s[..|s| - 1]);
    }
  }

  /** "HH:MM:SS" of a time of day in seconds. */
  function Clock(seconds: nat): (s: string)
    requires seconds < SecondsPerDay
    ensures |s| == 8
  {
    Pad2(seconds / 3600) + ":" + Pad2(seconds / 60 % 60) + ":" + Pad2(seconds % 60)
  }

  /** The seconds an "HH:MM:SS" text stands for. */
  function ClockValue(s: string): (seconds: nat)
    requires |s| == 8 && AllDigits(s[0..2]) && AllDigits(s[3..5]) && AllDigits(s[6..8])
  {
    DigitsValue(s[0..2]) * 3600 + DigitsValue(s[3..5]) * 60 + DigitsValue(s[6..8])
  }

  /**
   * FormatUptime: "D:HH:MM:SS" from one whole day up, "HH:MM:SS" below, from
   * the uptime in milliseconds.
   */
  function FormatUptime(millis: nat): (s: string)
  {
    var seconds := millis / MillisPerSecond;
    var days := seconds / SecondsPerDay;
    if days >= 1 then NatToString(days) + ":" + Clock(seconds % SecondsPerDay)
    else Clock(seconds)
  }

  lemma ClockPieces(h: string, m: string, c: string)
    requires |h| == 2 && |m| == 2 && |c| == 2
    ensures var s := h + ":" + m + ":" + c;
      |s| == 8 && s[2] == ':' && s[5] == ':' && s[0..2] == h && s[3..5] == m && s[6..8] == c
  {
  }

  lemma ClockRoundTrip(seconds: nat)
    requires seconds < SecondsPerDay
    ensures var s := Clock(seconds);
      s[2] == ':' && s[5] == ':' && AllDigits(s[0..2]) && AllDigits(s[3..5]) && AllDigits(s[6..8])
      && ClockValue(s) == seconds
  {
    var h := Pad2(seconds / 3600);
    var m := Pad2(seconds / 60 % 60);
    var c := Pad2(seconds % 60);
    ClockPieces(h, m, c);
    assert Clock(seconds) == h + ":" + m + ":" + c;
  }

  /** The uptime text reads back as the whole seconds of the uptime, days and time of day apart. */
  lemma UptimeRoundTrip(millis: nat)
    ensures var s := FormatUptime(millis); var seconds := millis / MillisPerSecond;
      && (seconds < SecondsPerDay ==> |s| == 8 && ClockValue(s) == seconds)
      && (seconds >= SecondsPerDay ==>
            |s| > 9 && s[..|s| - 9] == NatToString(seconds / SecondsPerDay) && s[|s| - 9] == ':'
            && ClockValue(s[|s| - 8..]) == seconds % SecondsPerDay)
  {
    var seconds := millis / MillisPerSecond;
    if seconds < SecondsPerDay {
      ClockRoundTrip(seconds);
    } else {
      var d := NatToString(seconds / SecondsPerDay);
      var c := Clock(seconds % SecondsPerDay);
      ClockRoundTrip(seconds % SecondsPerDay);
      var s := FormatUptime(millis);
      assert s == d + ":" + c;
      assert s[..|s| - 9] == d && s[|s| - 8..] == c;
    }
  }
  // -------------------------------------------------------------- view model

  /** The layout flags and columns RefreshLayoutFlags derives from the drive list and the GPU count. */
  predicate LayoutFits(d: seq<StorageInfo>, g: nat, flags: LayoutFlags,
    top: Option<StorageInfo>, left: seq<StorageInfo>, right: seq<StorageInfo>)
  {
    && flags == FlagsFor(|d|, g)
    && top == (if |d| > 0 then Some(d[0]) else None)
    && (left, right) == ColumnSplit(d, OddFiveOrMore(|d|))
  }

  /** The HasThreeOrMoreDrives … ShowDefaultDriveList properties, in declaration order. */
  datatype LayoutFlags = LayoutFlags(
    threeOrMoreDrives: bool, threeOrMoreGpus: bool, fourDrives: bool, fourGpus: bool,
    fiveOrMoreDrives: bool, oddFiveOrMoreDrives: bool, showDefault: bool)

  /** The flags for n drives and g GPUs. */
  function FlagsFor(n: nat, g: nat): LayoutFlags {
    LayoutFlags(n >= 3, g >= 3, n == 4, g == 4, n >= 5, OddFiveOrMore(n), ShowDefaultDriveList(n))
  }

  /** The sidebar entries. */
  datatype ItemType = Cpu | Memory | Storage | Network | Gpu

  /**
   * What UpdateLoopAsync hands to ApplyUpdate for one tick. `drives` is the
   * monitor's drive list on an expensive tick (every third) and empty on the
   * others.
   */
  /** The per-core values a tick's tiles show: the readings averaged onto the physical cores. */
  function TickTiles(perCoreUsages: seq<Double>, physicalCoreCount: int, logicalProcessorCount: int): seq<Double> {
    Aggregated(perCoreUsages, PhysicalOf(physicalCoreCount), LogicalOf(logicalProcessorCount, |perCoreUsages|))
  }

  datatype Tick = Tick(
    cpuUsage: real,
    perCoreUsages: seq<Double>,
    physicalCoreCount: int,
    logicalProcessorCount: int,
    ramUsage: real,
    gpus: seq<GpuInfo>,
    drives: seq<StorageInfo>,
    expensive: bool,
    uploadHistory: seq<real>,
    downloadHistory: seq<real>)

  /** GpuInfo.Equals and StorageInfo.Equals are symmetric, so the reconcile only needs the matching to be one-to-one. */
  lemma EqualsSymmetric(g: seq<GpuInfo>, gd: seq<GpuInfo>, s: seq<StorageInfo>, sd: seq<StorageInfo>)
    ensures Collections.Symmetric(GpuEquals, g, gd)
    ensures Collections.Symmetric(StorageEquals, s, sd)
  {
    forall p, j | 0 <= p < |g| && 0 <= j < |gd| ensures GpuEquals(g[p], gd[j]) == GpuEquals(gd[j], g[p]) {
      GpuEqualsReflexiveSymmetric(g[p], gd[j]);
    }
    forall p, j | 0 <= p < |s| && 0 <= j < |sd| ensures StorageEquals(s[p], sd[j]) == StorageEquals(sd[j], s[p]) {
      StorageEqualsReflexiveSymmetric(s[p], sd[j]);
    }
  }

  class PerformanceViewModel {
    const gpus: Collections.Collection<GpuInfo>
    const drives: Collections.Collection<StorageInfo>
    var cpuHistory: seq<real>
    var ramHistory: seq<real>
    var storageHistories: map<string, seq<real>>
    var gpuHistories: map<string, seq<real>>
    var cpuCores: seq<CpuCoreInfo>
    /** HasThreeOrMoreDrives … ShowDefaultDriveList, which RefreshLayoutFlags always sets together. */
    var flags: LayoutFlags
    var topDrive: Option<StorageInfo>
    var drivesLeftColumn: seq<StorageInfo>
    var drivesRightColumn: seq<StorageInfo>
    var selectedItem: Option<ItemType>
    var selectedDrive: Option<StorageInfo>
    var selectedGpu: Option<GpuInfo>
    var selectedDriveKey: string
    var selectedGpuKey: string
    /** IsSelected of Drives[i] and of Gpus[i]. */
    var driveSelected: seq<bool>
    var gpuSelected: seq<bool>
    /** Network.UploadHistory and Network.DownloadHistory. */
    var uploadHistory: seq<real>
    var downloadHistory: seq<real>
    var chartHistory: seq<real>

    /** The layout flags and columns that RefreshLayoutFlags derives from the two collections. */
    ghost predicate LayoutFollowsCounts()
      reads this`flags, this`topDrive, this`drivesLeftColumn, this`drivesRightColumn, drives, gpus
    {
      LayoutFits(drives.items, |gpus.items|, flags, topDrive, drivesLeftColumn, drivesRightColumn)
    }

    /** The histories are within capacity, the core tiles are distinct objects and the layout is current. */
    ghost predicate Valid()
      reads this`cpuHistory, this`ramHistory, this`storageHistories, this`gpuHistories, this`cpuCores
    {
      && |cpuHistory| <= HistoryCapacity && |ramHistory| <= HistoryCapacity
      && Bounded(storageHistories) && Bounded(gpuHistories)
      && CoresDistinct()
    }

    /** Each core tile is its own object. */
    ghost predicate CoresDistinct()
      reads this`cpuCores
    {
      forall i, j :: 0 <= i < j < |cpuCores| ==> cpuCores[i] != cpuCores[j]
    }

    /**
     * The histories show the tick over the earlier ones: the network series
     * replaced, CPU and RAM with one sample pushed, each drive and GPU with
     * its sample pushed under its key.
     */
    ghost predicate HistoriesShow(t: Tick, cpu0: seq<real>, ram0: seq<real>,
                                  storage0: map<string, seq<real>>, gpu0: map<string, seq<real>>)
      reads this`uploadHistory, this`downloadHistory, this`cpuHistory, this`ramHistory,
        this`storageHistories, this`gpuHistories
    {
      && uploadHistory == t.uploadHistory && downloadHistory == t.downloadHistory
      && cpuHistory == PushSample(cpu0, t.cpuUsage) && ramHistory == PushSample(ram0, t.ramUsage)
      && storageHistories == PushKeyedAll(storage0, DriveSamples(t.drives))
      && gpuHistories == PushKeyedAll(gpu0, GpuSamples(t.gpus))
    }

    /** The core tiles show the tick: one per physical core, each with its aggregated usage. */
    ghost predicate TilesShow(t: Tick)
      reads this`cpuCores, set c | c in cpuCores
    {
      && |cpuCores| == PhysicalOf(t.physicalCoreCount)
      && forall i :: 0 <= i < |cpuCores| ==>
        cpuCores[i].usage == TileUsage(TickTiles(t.perCoreUsages, t.physicalCoreCount, t.logicalProcessorCount), i)
    }

    /** A new view model: empty collections and histories, the CPU entry selected, the layout of no drives. */
    constructor ()
      ensures Valid() && LayoutFollowsCounts()
      ensures fresh(gpus) && fresh(drives) && gpus.items == [] && drives.items == []
      ensures cpuHistory == [] && ramHistory == [] && storageHistories == map[] && gpuHistories == map[]
      ensures cpuCores == [] && selectedItem == Some(Cpu) && chartHistory == []
      ensures selectedDrive == None && selectedGpu == None && selectedDriveKey == "" && selectedGpuKey == ""
      ensures flags.showDefault && topDrive == None && drivesLeftColumn == [] && drivesRightColumn == []
    {
      gpus := new Collections.Collection<GpuInfo>();
      drives := new Collections.Collection<StorageInfo>();
      cpuHistory := [];
      ramHistory := [];
      storageHistories := map[];
      gpuHistories := map[];
      cpuCores := [];
      flags := LayoutFlags(false, false, false, false, false, false, true);
      topDrive := None;
      drivesLeftColumn := [];
      drivesRightColumn := [];
      selectedItem := Some(Cpu);
      selectedDrive := None;
      selectedGpu := None;
      selectedDriveKey := "";
      selectedGpuKey := "";
      driveSelected := [];
      gpuSelected := [];
      uploadHistory := [];
      downloadHistory := [];
      chartHistory := [];
    }

    /** RefreshLayoutFlags, run on every change to Drives or Gpus. */
    method RefreshLayoutFlags()
      modifies this`flags, this`topDrive, this`drivesLeftColumn, this`drivesRightColumn
      ensures LayoutFollowsCounts()
    {
      var n := |drives.items|;
      var g := |gpus.items|;
      var fourDrives := n == 4;
      var oddFiveOrMoreDrives := n >= 5 && n % 2 == 1;
      flags := LayoutFlags(n >= 3, g >= 3, fourDrives, g == 4, n >= 5, oddFiveOrMoreDrives, !(fourDrives || oddFiveOrMoreDrives));
      topDrive := if n > 0 then Some(drives.items[0]) else None;
      UpdateDriveColumns();
    }

    /** UpdateDriveColumns: clears both columns, then deals the drives after the first into them. */
    method UpdateDriveColumns()
      modifies this`drivesLeftColumn, this`drivesRightColumn
      ensures (drivesLeftColumn, drivesRightColumn) == ColumnSplit(drives.items, flags.oddFiveOrMoreDrives)
    {
      drivesLeftColumn := [];
      drivesRightColumn := [];
      var d := drives.items;
      if !flags.oddFiveOrMoreDrives || |d| <= 1 {
        assert ColumnSplit(d, flags.oddFiveOrMoreDrives) == ([], []);
        return;
      }
      var remaining := |d| - 1;
      var leftCount := (remaining + 1) / 2;
      var i := 1;
      while i < |d|
        invariant 1 <= i <= |d|
        invariant var l := if i - 1 < leftCount then i - 1 else leftCount;
          drivesLeftColumn == d[1..1 + l] && drivesRightColumn == d[1 + l..i]
      {
        if i - 1 < leftCount {
          drivesLeftColumn := drivesLeftColumn + [d[i]];
        } else {
          drivesRightColumn := drivesRightColumn + [d[i]];
        }
        i := i + 1;
      }
      assert leftCount <= |d| - 1;
      assert drivesLeftColumn == d[1..1 + leftCount] && drivesRightColumn == d[1 + leftCount..];
      assert ColumnSplit(d, true) == (d[1..1 + leftCount], d[1 + leftCount..]);
    }

    /**
     * UpdateCollection(Gpus, gpus), followed by the layout refresh its
     * notifications trigger: GPUs that a new reading still equals keep their
     * card, and with a one-to-one matching the cards end in the new order.
     */
    method UpdateGpus(desired: seq<GpuInfo>)
      requires Valid()
      modifies gpus, this`flags, this`topDrive, this`drivesLeftColumn, this`drivesRightColumn
      ensures Valid() && LayoutFollowsCounts()
      ensures forall x :: x in old(gpus.items) && Collections.Has(desired, x, GpuEquals) ==> x in gpus.items
      ensures forall k :: 0 <= k < |gpus.items| ==> gpus.items[k] in old(gpus.items) || gpus.items[k] in desired
      ensures Collections.OneToOne(GpuEquals, old(gpus.items), desired) ==> Collections.Aligned(GpuEquals, gpus.items, desired)
      ensures Collections.OneToOne(GpuEquals, old(gpus.items), desired) && Collections.Aligned(GpuEquals, old(gpus.items), desired) ==>
        gpus.items == old(gpus.items) && gpus.changes == old(gpus.changes)
    {
      EqualsSymmetric(gpus.items, desired, [], []);
      var completed := Collections.Reconcile(gpus, desired, GpuEquals);
      RefreshLayoutFlags();
    }

    /** UpdateCollection(Drives, drives) and the layout refresh. */
    method UpdateDrives(desired: seq<StorageInfo>)
      requires Valid()
      modifies drives, this`flags, this`topDrive, this`drivesLeftColumn, this`drivesRightColumn
      ensures Valid() && LayoutFollowsCounts()
      ensures forall x :: x in old(drives.items) && Collections.Has(desired, x, StorageEquals) ==> x in drives.items
      ensures forall k :: 0 <= k < |drives.items| ==> drives.items[k] in old(drives.items) || drives.items[k] in desired
      ensures Collections.OneToOne(StorageEquals, old(drives.items), desired) ==> Collections.Aligned(StorageEquals, drives.items, desired)
      ensures Collections.OneToOne(StorageEquals, old(drives.items), desired) && Collections.Aligned(StorageEquals, old(drives.items), desired) ==>
        drives.items == old(drives.items) && drives.changes == old(drives.changes)
    {
      EqualsSymmetric([], [], drives.items, desired);
      var completed := Collections.Reconcile(drives, desired, StorageEquals);
      RefreshLayoutFlags();
    }

    /** The CPU history: _cpuHistory.Add, then RemoveAt(0) past 60. */
    method RecordCpuUsage(usage: real)
      requires Valid()
      modifies this`cpuHistory
      ensures Valid()
      ensures cpuHistory == PushSample(old(cpuHistory), usage)
    {
      var list := cpuHistory + [usage];
      if |list| > HistoryCapacity {
        list := list[1..];
      }
      cpuHistory := list;
    }

    /** UpdateRamHistory. */
    method UpdateRamHistory(usage: real)
      requires Valid()
      modifies this`ramHistory
      ensures Valid()
      ensures ramHistory == PushSample(old(ramHistory), usage)
    {
      var list := ramHistory + [usage];
      if |list| > HistoryCapacity {
        list := list[1..];
      }
      ramHistory := list;
    }

    /** The foreach over the tick's drives: each usage appended to the history under the drive's name. */
    method RecordDriveUsages(samples: seq<StorageInfo>)
      requires Bounded(storageHistories)
      modifies this`storageHistories
      ensures Bounded(storageHistories)
      ensures storageHistories == PushKeyedAll(old(storageHistories), DriveSamples(samples))
    {
      storageHistories := RecordSamples(storageHistories, DriveSamples(samples));
    }

    /** The foreach over the tick's GPUs. */
    method RecordGpuUsages(samples: seq<GpuInfo>)
      requires Bounded(gpuHistories)
      modifies this`gpuHistories
      ensures Bounded(gpuHistories)
      ensures gpuHistories == PushKeyedAll(old(gpuHistories), GpuSamples(samples))
    {
      gpuHistories := RecordSamples(gpuHistories, GpuSamples(samples));
    }

    /**
     * The per-core tiles: the readings averaged onto the physical cores; the
     * tiles are recreated, indexed from 0, when their number changes, and
     * otherwise the existing tiles get the new usages in place.
     */
    method UpdateCoreTiles(perCoreUsages: seq<Double>, physicalCoreCount: int, logicalProcessorCount: int)
      requires Valid()
      modifies this`cpuCores, set c | c in cpuCores
      ensures Valid()
      ensures var physical := PhysicalOf(physicalCoreCount);
        var list := Aggregated(perCoreUsages, physical, LogicalOf(logicalProcessorCount, |perCoreUsages|));
        var target := TargetCount(physical, |list|);
        && |cpuCores| == target
        && (forall i :: 0 <= i < target ==> cpuCores[i].usage == TileUsage(list, i))
        && (target != |old(cpuCores)| ==> forall i :: 0 <= i < target ==> fresh(cpuCores[i]) && cpuCores[i].index == i)
        && (target == |old(cpuCores)| ==>
              cpuCores == old(cpuCores) && forall i :: 0 <= i < target ==> cpuCores[i].index == old(cpuCores[i].index))
    {
      var physical := if physicalCoreCount > 0 then physicalCoreCount else 0;
      physical := if physical > 1 then physical else 1;
      var logical := if logicalProcessorCount > 0 then logicalProcessorCount else |perCoreUsages|;
      logical := if logical > 1 then logical else 1;
      var list := AggregateLogicalToPhysical(perCoreUsages, physical, logical);
      var targetCount := TargetCount(physical, |list|);
      if targetCount != |cpuCores| {
        var cores: seq<CpuCoreInfo> := [];
        var i := 0;
        while i < targetCount
          invariant 0 <= i <= targetCount && |cores| == i
          invariant forall k :: 0 <= k < i ==> fresh(cores[k]) && cores[k].index == k && cores[k].usage == TileUsage(list, k)
          invariant forall k, l :: 0 <= k < l < i ==> cores[k] != cores[l]
        {
          var v := if i < |list| then list[i] else Finite(0.0);
          var core := new CpuCoreInfo(i, v);
          cores := cores + [core];
          i := i + 1;
        }
        cpuCores := cores;
      } else {
        var i := 0;
        while i < |cpuCores|
          invariant cpuCores == old(cpuCores)
          invariant 0 <= i <= |cpuCores|
          invariant forall k, l :: 0 <= k < l < |cpuCores| ==> cpuCores[k] != cpuCores[l]
          invariant forall k :: 0 <= k < i ==> cpuCores[k].usage == TileUsage(list, k)
          invariant forall k :: 0 <= k < |cpuCores| ==> cpuCores[k].index == old(cpuCores[k].index)
        {
          var v := if i < |list| then list[i] else Finite(0.0);
          cpuCores[i].usage := v;
          i := i + 1;
        }
      }
    }

    /** The tick's tiles: one per physical core (one when the count is unknown). */
    method UpdateCores(t: Tick)
      requires Valid()
      modifies this`cpuCores, set c | c in cpuCores
      ensures Valid()
      ensures TilesShow(t)
      ensures drives.items == old(drives.items) && gpus.items == old(gpus.items)
      ensures flags == old(flags) && topDrive == old(topDrive)
      ensures drivesLeftColumn == old(drivesLeftColumn) && drivesRightColumn == old(drivesRightColumn)
      ensures uploadHistory == old(uploadHistory) && downloadHistory == old(downloadHistory)
      ensures cpuHistory == old(cpuHistory) && ramHistory == old(ramHistory)
      ensures storageHistories == old(storageHistories) && gpuHistories == old(gpuHistories)
    {
      UpdateCoreTiles(t.perCoreUsages, t.physicalCoreCount, t.logicalProcessorCount);
      TileCountIsPhysical(t.perCoreUsages, t.physicalCoreCount, t.logicalProcessorCount);
    }

    /** UpdateDriveSelectionFlags. */
    method UpdateDriveSelectionFlags()
      modifies this`driveSelected
      ensures driveSelected == SelectionFlags(DriveNames(drives.items), DriveNameOr(selectedDrive))
    {
      var d := drives.items;
      var flags: seq<bool> := [];
      var i := 0;
      while i < |d|
        invariant 0 <= i <= |d| && |flags| == i
        invariant forall k :: 0 <= k < i ==> flags[k] == EqualsIgnoreCase(d[k].name, DriveNameOr(selectedDrive))
      {
        flags := flags + [EqualsIgnoreCase(d[i].name, DriveNameOr(selectedDrive))];
        i := i + 1;
      }
      driveSelected := flags;
    }

    /** UpdateGpuSelectionFlags. */
    method UpdateGpuSelectionFlags()
      modifies this`gpuSelected
      ensures gpuSelected == SelectionFlags(GpuNames(gpus.items), GpuNameOr(selectedGpu))
    {
      var g := gpus.items;
      var flags: seq<bool> := [];
      var i := 0;
      while i < |g|
        invariant 0 <= i <= |g| && |flags| == i
        invariant forall k :: 0 <= k < i ==> flags[k] == EqualsIgnoreCase(g[k].name, GpuNameOr(selectedGpu))
      {
        flags := flags + [EqualsIgnoreCase(g[i].name, GpuNameOr(selectedGpu))];
        i := i + 1;
      }
      gpuSelected := flags;
    }

    /** The SelectedDrive setter and OnSelectedDriveChanged: a value the old one Equals is not stored. */
    method SetSelectedDrive(value: Option<StorageInfo>)
      modifies this`selectedDrive, this`selectedDriveKey, this`driveSelected
      ensures SameDrive(old(selectedDrive), value) ==>
        selectedDrive == old(selectedDrive) && selectedDriveKey == old(selectedDriveKey) && driveSelected == old(driveSelected)
      ensures !SameDrive(old(selectedDrive), value) ==>
        && selectedDrive == value && selectedDriveKey == DriveNameOr(value)
        && driveSelected == SelectionFlags(DriveNames(drives.items), DriveNameOr(value))
    {
      if !SameDrive(selectedDrive, value) {
        selectedDrive := value;
        selectedDriveKey := DriveNameOr(value);
        UpdateDriveSelectionFlags();
      }
    }

    /** The SelectedGpu setter and OnSelectedGpuChanged. */
    method SetSelectedGpu(value: Option<GpuInfo>)
      modifies this`selectedGpu, this`selectedGpuKey, this`gpuSelected
      ensures SameGpu(old(selectedGpu), value) ==>
        selectedGpu == old(selectedGpu) && selectedGpuKey == old(selectedGpuKey) && gpuSelected == old(gpuSelected)
      ensures !SameGpu(old(selectedGpu), value) ==>
        && selectedGpu == value && selectedGpuKey == GpuNameOr(value)
        && gpuSelected == SelectionFlags(GpuNames(gpus.items), GpuNameOr(value))
    {
      if !SameGpu(selectedGpu, value) {
        selectedGpu := value;
        selectedGpuKey := GpuNameOr(value);
        UpdateGpuSelectionFlags();
      }
    }

    /**
     * RestoreSelectedDrive: the selection becomes the drive the saved key
     * names, else the first drive, none for no drives (kept when the old one
     * Equals it); the key follows a changed selection, and the flags mark
     * exactly the cards named like it.
     */
    method RestoreSelectedDrive()
      modifies this`selectedDrive, this`selectedDriveKey, this`driveSelected
      ensures var choice := DriveChoice(drives.items, old(selectedDriveKey));
        && selectedDrive == (if SameDrive(old(selectedDrive), choice) then old(selectedDrive) else choice)
        && selectedDriveKey == (if SameDrive(old(selectedDrive), choice) then old(selectedDriveKey) else DriveNameOr(choice))
      ensures drives.items != [] ==> driveSelected == SelectionFlags(DriveNames(drives.items), DriveNameOr(selectedDrive))
      ensures selectedDrive.None? <==> |drives.items| == 0
    {
      DriveChoiceIsNamed(drives.items, selectedDriveKey);
      var d := drives.items;
      if |d| == 0 {
        SetSelectedDrive(None);
        return;
      }
      var found := ByName(DriveNames(d), selectedDriveKey);
      var choice := if found.Some? then d[found.value] else d[0];
      assert Some(choice) == DriveChoice(d, selectedDriveKey);
      var sameObject := selectedDrive.Some? && selectedDrive.value.id == choice.id;
      if !sameObject {
        SetSelectedDrive(Some(choice));
      }
      UpdateDriveSelectionFlags();
    }

    /** RestoreSelectedGpu: as for drives, with the preferred GPU when no name matches. */
    method RestoreSelectedGpu()
      modifies this`selectedGpu, this`selectedGpuKey, this`gpuSelected
      ensures var choice := GpuChoice(gpus.items, old(selectedGpuKey));
        && selectedGpu == (if SameGpu(old(selectedGpu), choice) then old(selectedGpu) else choice)
        && selectedGpuKey == (if SameGpu(old(selectedGpu), choice) then old(selectedGpuKey) else GpuNameOr(choice))
      ensures gpus.items != [] ==> gpuSelected == SelectionFlags(GpuNames(gpus.items), GpuNameOr(selectedGpu))
      ensures selectedGpu.None? <==> |gpus.items| == 0
    {
      GpuChoiceIsNamed(gpus.items, selectedGpuKey);
      var g := gpus.items;
      if |g| == 0 {
        SetSelectedGpu(None);
        return;
      }
      var found := ByName(GpuNames(g), selectedGpuKey);
      var preferred := ChoosePreferredGpu(g);
      var choice := if found.Some? then g[found.value] else preferred.value;
      assert Some(choice) == GpuChoice(g, selectedGpuKey);
      var sameObject := selectedGpu.Some? && selectedGpu.value.id == choice.id;
      if !sameObject {
        SetSelectedGpu(Some(choice));
      }
      UpdateGpuSelectionFlags();
    }

    /** SelectedDrive ?? Drives[0]. */
    function ShownDrive(): (d: Option<StorageInfo>)
      reads this`selectedDrive, drives
    {
      if selectedDrive.Some? then selectedDrive
      else if drives.items != [] then Some(drives.items[0]) else None
    }

    /** SelectedGpu ?? the busiest GPU. */
    function ShownGpu(): (g: Option<GpuInfo>)
      reads this`selectedGpu, gpus
    {
      if selectedGpu.Some? then selectedGpu else BusiestGpu(gpus.items)
    }

    /** The chart of the selected entry. */
    function SelectedHistory(): (h: seq<real>)
      reads this`selectedItem, this`cpuHistory, this`ramHistory, this`storageHistories, this`gpuHistories,
        this`uploadHistory, this`downloadHistory, this`selectedDrive, this`selectedGpu, drives, gpus
    {
      match selectedItem
      case Some(Cpu) => cpuHistory
      case Some(Memory) => ramHistory
      case Some(Storage) => if ShownDrive().Some? then HistoryOf(storageHistories, ShownDrive().value.name) else []
      case Some(Gpu) => if ShownGpu().Some? then HistoryOf(gpuHistories, ShownGpu().value.name) else []
      case Some(Network) => NetworkSeriesOf(uploadHistory, downloadHistory)
      case None => []
    }

    /** Every chart but the network one is a history, so it holds at most 60 points. */
    lemma SelectedHistoryBounded()
      requires Valid() && selectedItem != Some(Network)
      ensures |SelectedHistory()| <= HistoryCapacity
    {
    }

    /** GetSelectedHistory. */
    method GetSelectedHistory() returns (h: seq<real>)
      ensures h == SelectedHistory()
    {
      if selectedItem == Some(Cpu) { return cpuHistory; }
      if selectedItem == Some(Memory) { return ramHistory; }
      if selectedItem == Some(Storage) {
        var d := if selectedDrive.Some? then selectedDrive else if |drives.items| > 0 then Some(drives.items[0]) else None;
        return if d.Some? then HistoryOf(storageHistories, d.value.name) else [];
      }
      if selectedItem == Some(Gpu) {
        var g := if selectedGpu.Some? then selectedGpu else BusiestGpu(gpus.items);
        return if g.Some? then HistoryOf(gpuHistories, g.value.name) else [];
      }
      if selectedItem == Some(Network) {
        h := NetworkSeries(uploadHistory, downloadHistory);
        return;
      }
      return [];
    }

    /** The first part of ApplyUpdate: the GPU cards, and the drive cards on an expensive tick. */
    method UpdateCards(t: Tick)
      requires Valid()
      modifies gpus, drives, this`flags, this`topDrive, this`drivesLeftColumn, this`drivesRightColumn
      ensures Valid() && LayoutFollowsCounts()
      ensures Collections.OneToOne(GpuEquals, old(gpus.items), t.gpus) ==> Collections.Aligned(GpuEquals, gpus.items, t.gpus)
      ensures t.expensive && Collections.OneToOne(StorageEquals, old(drives.items), t.drives) ==>
        Collections.Aligned(StorageEquals, drives.items, t.drives)
      ensures !t.expensive ==> drives.items == old(drives.items)
    {
      UpdateGpus(t.gpus);
      if t.expensive {
        UpdateDrives(t.drives);
      }
    }

    /** The histories a tick extends: the network series, the CPU, RAM, per-drive and per-GPU histories. */
    method RecordHistories(t: Tick)
      requires Valid()
      modifies this`uploadHistory, this`downloadHistory, this`cpuHistory, this`ramHistory,
        this`storageHistories, this`gpuHistories
      ensures Valid()
      ensures HistoriesShow(t, old(cpuHistory), old(ramHistory), old(storageHistories), old(gpuHistories))
    {
      uploadHistory := t.uploadHistory;
      downloadHistory := t.downloadHistory;
      RecordCpuUsage(t.cpuUsage);
      UpdateRamHistory(t.ramUsage);
      RecordDriveUsages(t.drives);
      RecordGpuUsages(t.gpus);
    }

    /** The middle of ApplyUpdate: the histories, with the core tiles updated between the CPU and RAM histories. */
    method RecordTick(t: Tick)
      requires Valid()
      modifies this`uploadHistory, this`downloadHistory, this`cpuHistory, this`ramHistory, this`cpuCores,
        this`storageHistories, this`gpuHistories, set c | c in cpuCores
      ensures Valid()
      ensures HistoriesShow(t, old(cpuHistory), old(ramHistory), old(storageHistories), old(gpuHistories))
      ensures TilesShow(t)
      ensures drives.items == old(drives.items) && gpus.items == old(gpus.items)
      ensures flags == old(flags) && topDrive == old(topDrive)
      ensures drivesLeftColumn == old(drivesLeftColumn) && drivesRightColumn == old(drivesRightColumn)
    {
      RecordHistories(t);
      UpdateCores(t);
    }

    /** The end of ApplyUpdate: the restored selections and the chart of the selected entry. */
    method RestoreSelections()
      modifies this`selectedDrive, this`selectedDriveKey, this`driveSelected,
        this`selectedGpu, this`selectedGpuKey, this`gpuSelected, this`chartHistory
      ensures selectedDrive.None? <==> |drives.items| == 0
      ensures selectedGpu.None? <==> |gpus.items| == 0
      ensures chartHistory == SelectedHistory()
      ensures uploadHistory == old(uploadHistory) && downloadHistory == old(downloadHistory)
      ensures cpuHistory == old(cpuHistory) && ramHistory == old(ramHistory)
      ensures storageHistories == old(storageHistories) && gpuHistories == old(gpuHistories)
      ensures cpuCores == old(cpuCores)
      ensures drives.items == old(drives.items) && gpus.items == old(gpus.items)
      ensures flags == old(flags) && topDrive == old(topDrive)
      ensures drivesLeftColumn == old(drivesLeftColumn) && drivesRightColumn == old(drivesRightColumn)
    {
      RestoreDriveAndGpu();
      chartHistory := GetSelectedHistory();
    }

    /** The two restores of ApplyUpdate: a drive and a GPU are selected exactly when there are some. */
    method RestoreDriveAndGpu()
      modifies this`selectedDrive, this`selectedDriveKey, this`driveSelected,
        this`selectedGpu, this`selectedGpuKey, this`gpuSelected
      ensures selectedDrive.None? <==> |drives.items| == 0
      ensures selectedGpu.None? <==> |gpus.items| == 0
    {
      RestoreSelectedDrive();
      RestoreSelectedGpu();
    }

    /**
     * ApplyUpdate: the GPU cards, on an expensive tick the drive cards, the
     * network histories, the CPU history, the core tiles, the RAM history,
     * the per-drive and per-GPU histories, the restored selections and the
     * chart of the selected entry.
     */
    method ApplyUpdate(t: Tick)
      requires Valid()
      modifies gpus, drives, set c | c in cpuCores, this`flags, this`topDrive, this`drivesLeftColumn, this`drivesRightColumn
      modifies this`uploadHistory, this`downloadHistory, this`cpuHistory, this`ramHistory, this`cpuCores,
        this`storageHistories, this`gpuHistories
      modifies this`selectedDrive, this`selectedDriveKey, this`driveSelected,
        this`selectedGpu, this`selectedGpuKey, this`gpuSelected, this`chartHistory
      ensures Valid() && LayoutFollowsCounts()
      ensures |cpuCores| == PhysicalOf(t.physicalCoreCount)
      ensures selectedDrive.None? <==> |drives.items| == 0
      ensures selectedGpu.None? <==> |gpus.items| == 0
      ensures chartHistory == SelectedHistory()
      ensures Collections.OneToOne(GpuEquals, old(gpus.items), t.gpus) ==> Collections.Aligned(GpuEquals, gpus.items, t.gpus)
      ensures t.expensive && Collections.OneToOne(StorageEquals, old(drives.items), t.drives) ==>
        Collections.Aligned(StorageEquals, drives.items, t.drives)
      ensures !t.expensive ==> drives.items == old(drives.items)
      ensures HistoriesShow(t, old(cpuHistory), old(ramHistory), old(storageHistories), old(gpuHistories))
      ensures TilesShow(t)
    {
      UpdateCards(t);
      label Cards:
      RecordAndRestore(t);
      LayoutKept@Cards();
    }

    /** The part of ApplyUpdate after the cards: the histories and tiles, then the selections and the chart. */
    method RecordAndRestore(t: Tick)
      requires Valid()
      modifies this`uploadHistory, this`downloadHistory, this`cpuHistory, this`ramHistory, this`cpuCores,
        this`storageHistories, this`gpuHistories, set c | c in cpuCores
      modifies this`selectedDrive, this`selectedDriveKey, this`driveSelected,
        this`selectedGpu, this`selectedGpuKey, this`gpuSelected, this`chartHistory
      ensures Valid() && unchanged(drives, gpus)
      ensures drives.items == old(drives.items) && gpus.items == old(gpus.items)
      ensures flags == old(flags) && topDrive == old(topDrive)
      ensures drivesLeftColumn == old(drivesLeftColumn) && drivesRightColumn == old(drivesRightColumn)
      ensures selectedDrive.None? <==> |drives.items| == 0
      ensures selectedGpu.None? <==> |gpus.items| == 0
      ensures chartHistory == SelectedHistory()
      ensures HistoriesShow(t, old(cpuHistory), old(ramHistory), old(storageHistories), old(gpuHistories))
      ensures TilesShow(t)
    {
      RecordTick(t);
      RestoreSelections();
    }


    /** The layout flags depend on the two card lists and the layout fields only. */
    twostate lemma LayoutKept()
      requires old(LayoutFollowsCounts()) && drives.items == old(drives.items) && gpus.items == old(gpus.items)
      requires flags == old(flags) && topDrive == old(topDrive)
      requires drivesLeftColumn == old(drivesLeftColumn) && drivesRightColumn == old(drivesRightColumn)
      ensures LayoutFollowsCounts()
    {
    }
  }
}
