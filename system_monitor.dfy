/**
 * The sampler state of the system monitor service: drive activity smoothed
 * from idle-time counters (with a switch that turns the counters off for good
 * once one fails), the per-core usage cache, the padding of the GPU and drive
 * lists with emulated entries, the network histories and the snapshot deltas
 * of the per-process byte tables.
 *
 * Counter reads, drive enumeration, network statistics and the kernel trace
 * tables are foreign: their outcomes are parameters.
 */
module SystemMonitor {
  import opened Wrappers
  import opened Numerics
  import opened Text
  import opened Collections
  import opened SystemInfo
  import Sensors
  import Settings
  import Performance

  // ---------------------------------------------------------------------------
  // Drives and their idle-time counters
  // ---------------------------------------------------------------------------

  /**
   * One entry of the drive enumeration. counterAvailable says whether an idle
   * counter could be opened for it (the logical-disk counter, else the
   * physical-disk instance whose name contains the letter).
   */
  datatype DriveEntry = DriveEntry(
    name: string,
    isReady: bool,
    isFixed: bool,
    volumeLabel: string,
    driveFormat: string,
    space: string,
    root: string,
    counterAvailable: bool)

  /** Only ready, fixed drives are sampled and listed. */
  predicate IsListed(d: DriveEntry) {
    d.isReady && d.isFixed
  }

  /** TrimEnd(c): the longest prefix that does not end in c. */
  function TrimEndChar(s: string, c: char): (r: string)
    ensures r <= s
    ensures r == [] || r[|r| - 1] != c
    ensures forall i :: |r| <= i < |s| ==> s[i] == c
    decreases |s|
  {
    if s != [] && s[|s| - 1] == c then TrimEndChar(s[..|s| - 1], c) else s
  }

  /** "C:\" becomes "C:". */
  function DriveLetter(d: DriveEntry): string {
    TrimEndChar(d.name, '\\')
  }

  predicate Distinct<T(==)>(s: seq<T>) {
    forall i, j :: 0 <= i < j < |s| ==> s[i] != s[j]
  }

  /**
   * The letters that get an idle counter, in enumeration order: each listed
   * drive with an available counter, once per letter.
   */
  function CounterLetters(drives: seq<DriveEntry>): (letters: seq<string>)
    ensures Distinct(letters)
    ensures forall l :: l in letters <==>
      exists d :: d in drives && IsListed(d) && d.counterAvailable && DriveLetter(d) == l
    decreases |drives|
  {
    if drives == [] then []
    else
      var before := CounterLetters(drives[..|drives| - 1]);
      var d := drives[|drives| - 1];
      assert forall e :: e in drives <==> e in drives[..|drives| - 1] || e == d;
      if IsListed(d) && d.counterAvailable && DriveLetter(d) !in before then before + [DriveLetter(d)] else before
  }

  /** The counters in use after EnsureDiskCounters: it fills the table only when it is empty. */
  function EnsuredLetters(current: seq<string>, drives: seq<DriveEntry>): (letters: seq<string>)
    ensures current != [] ==> letters == current
    ensures current == [] ==> letters == CounterLetters(drives)
  {
    if |current| > 0 then current else CounterLetters(drives)
  }

  /** What NextValue of one idle counter gives: a reading, or an exception. */
  datatype IdleRead = Read(idle: Double) | Failed

  /** Activity from idle time: 100 - idle, 0 when that is NaN or infinite, clamped to [0,100]. */
  function DiskActivity(idle: Double): (a: real)
    ensures 0.0 <= a <= 100.0
    ensures idle.Finite? && 0.0 <= idle.value <= 100.0 ==> a == 100.0 - idle.value
    ensures !idle.Finite? ==> a == 0.0
  {
    if idle.Finite? then Clamp(100.0 - idle.value, 0.0, 100.0) else 0.0
  }

  /**
   * Light smoothing: a drive seen before moves 40% of the way from its
   * previous value towards the new one; the result is clamped to [0,100].
   */
  function Smooth(prev: Option<real>, raw: real): (a: real)
    requires 0.0 <= raw <= 100.0
    ensures 0.0 <= a <= 100.0
    ensures prev.None? ==> a == raw
    ensures prev.Some? && 0.0 <= prev.value <= 100.0 ==>
      a == 0.6 * prev.value + 0.4 * raw && Min(prev.value, raw) <= a <= Max(prev.value, raw)
  {
    Clamp(if prev.Some? then prev.value * 0.6 + raw * 0.4 else raw, 0.0, 100.0)
  }

  function Lookup(m: map<string, real>, k: string): (r: Option<real>)
    ensures r.Some? <==> k in m
    ensures k in m ==> r.value == m[k]
  {
    if k in m then Some(m[k]) else None
  }

  /** The new value of one drive: the smoothed activity, or 0 when its counter failed. */
  function DriveOutcome(prev: Option<real>, r: IdleRead): (a: real)
    ensures 0.0 <= a <= 100.0
    ensures r.Failed? ==> a == 0.0
  {
    match r
    case Failed => 0.0
    case Read(idle) => Smooth(prev, DiskActivity(idle))
  }

  /** The outcome of one pass over the counters. */
  datatype DiskPass = DiskPass(activity: map<string, real>, failed: bool)

  /**
   * One pass of the disk loop over the counters in order: each drive gets its
   * new value; the first failure sets that drive to 0 and ends the pass.
   */
  function DiskPassOver(activity: map<string, real>, letters: seq<string>, counter: string -> IdleRead): (p: DiskPass)
    decreases |letters|
  {
    if letters == [] then DiskPass(activity, false)
    else
      var l := letters[0];
      var updated := activity[l := DriveOutcome(Lookup(activity, l), counter(l))];
      if counter(l).Failed? then DiskPass(updated, true)
      else DiskPassOver(updated, letters[1..], counter)
  }

  predicate ActivityBounded(activity: map<string, real>) {
    forall k :: k in activity ==> 0.0 <= activity[k] <= 100.0
  }

  /** Drive activity stays in [0,100]. */
  lemma {:induction false} DiskPassBounded(activity: map<string, real>, letters: seq<string>, counter: string -> IdleRead)
    requires ActivityBounded(activity)
    ensures ActivityBounded(DiskPassOver(activity, letters, counter).activity)
    decreases |letters|
  {
    if letters != [] {
      var l := letters[0];
      var updated := activity[l := DriveOutcome(Lookup(activity, l), counter(l))];
      assert ActivityBounded(updated);
      if !counter(l).Failed? {
        DiskPassBounded(updated, letters[1..], counter);
      }
    }
  }

  /** The pass reports a failure exactly when some counter in it fails. */
  lemma {:induction false} DiskPassFailure(activity: map<string, real>, letters: seq<string>, counter: string -> IdleRead)
    ensures DiskPassOver(activity, letters, counter).failed <==>
      exists i :: 0 <= i < |letters| && counter(letters[i]).Failed?
    decreases |letters|
  {
    if letters != [] {
      var l := letters[0];
      var updated := activity[l := DriveOutcome(Lookup(activity, l), counter(l))];
      if !counter(l).Failed? {
        DiskPassFailure(updated, letters[1..], counter);
        if exists i :: 0 <= i < |letters| && counter(letters[i]).Failed? {
          var i :| 0 <= i < |letters| && counter(letters[i]).Failed?;
          assert letters[1..][i - 1] == letters[i];
        }
        if exists i :: 0 <= i < |letters[1..]| && counter(letters[1..][i]).Failed? {
          var i :| 0 <= i < |letters[1..]| && counter(letters[1..][i]).Failed?;
          assert letters[i + 1] == letters[1..][i];
        }
      }
    }
  }

  /** Drives that are not in the pass keep their values, and no entries appear for them. */
  lemma {:induction false} DiskPassUntouched(activity: map<string, real>, letters: seq<string>, counter: string -> IdleRead, k: string)
    requires k !in letters
    ensures var p := DiskPassOver(activity, letters, counter);
      (k in p.activity <==> k in activity) && (k in activity ==> p.activity[k] == activity[k])
    decreases |letters|
  {
    if letters != [] {
      var l := letters[0];
      var updated := activity[l := DriveOutcome(Lookup(activity, l), counter(l))];
      if !counter(l).Failed? {
        DiskPassUntouched(updated, letters[1..], counter, k);
      }
    }
  }

  /**
   * Every drive up to and including the first failure gets its new value
   * from its own previous value and its own reading.
   */
  lemma {:induction false} DiskPassAt(activity: map<string, real>, letters: seq<string>, counter: string -> IdleRead, i: nat)
    requires Distinct(letters)
    requires i < |letters|
    requires forall j :: 0 <= j < i ==> !counter(letters[j]).Failed?
    ensures var p := DiskPassOver(activity, letters, counter);
      letters[i] in p.activity &&
      p.activity[letters[i]] == DriveOutcome(Lookup(activity, letters[i]), counter(letters[i]))
    decreases |letters|
  {
    var l := letters[0];
    var updated := activity[l := DriveOutcome(Lookup(activity, l), counter(l))];
    var tail := letters[1..];
    assert Distinct(tail) by {
      forall a, b | 0 <= a < b < |tail| ensures tail[a] != tail[b] {
        assert tail[a] == letters[a + 1] && tail[b] == letters[b + 1];
      }
    }
    if i == 0 {
      if !counter(l).Failed? {
        forall j | 0 <= j < |tail| ensures tail[j] != l {
          assert tail[j] == letters[j + 1];
        }
        DiskPassUntouched(updated, tail, counter, l);
      }
    } else {
      assert !counter(l).Failed?;
      assert letters[i] != l;
      assert tail[i - 1] == letters[i];
      forall j | 0 <= j < i - 1 ensures !counter(tail[j]).Failed? {
        assert tail[j] == letters[j + 1];
      }
      DiskPassAt(updated, tail, counter, i - 1);
      assert Lookup(updated, letters[i]) == Lookup(activity, letters[i]);
    }
  }

  /** Drives after the first failure are not read: they keep their values. */
  lemma {:induction false} DiskPassStops(activity: map<string, real>, letters: seq<string>, counter: string -> IdleRead, i: nat, k: nat)
    requires Distinct(letters)
    requires i < k < |letters|
    requires counter(letters[i]).Failed?
    requires forall j :: 0 <= j < i ==> !counter(letters[j]).Failed?
    ensures var p := DiskPassOver(activity, letters, counter);
      (letters[k] in p.activity <==> letters[k] in activity) &&
      (letters[k] in activity ==> p.activity[letters[k]] == activity[letters[k]])
    decreases |letters|
  {
    var l := letters[0];
    var updated := activity[l := DriveOutcome(Lookup(activity, l), counter(l))];
    var tail := letters[1..];
    assert letters[k] != l;
    if i > 0 {
      assert !counter(l).Failed?;
      assert Distinct(tail) by {
        forall a, b | 0 <= a < b < |tail| ensures tail[a] != tail[b] {
          assert tail[a] == letters[a + 1] && tail[b] == letters[b + 1];
        }
      }
      assert tail[i - 1] == letters[i] && tail[k - 1] == letters[k];
      forall j | 0 <= j < i - 1 ensures !counter(tail[j]).Failed? {
        assert tail[j] == letters[j + 1];
      }
      DiskPassStops(updated, tail, counter, i - 1, k - 1);
    }
  }

  // ---------------------------------------------------------------------------
  // Per-core usage from processor counters
  // ---------------------------------------------------------------------------

  /** What NextValue of one per-core counter gives. */
  datatype CoreRead = CoreValue(v: Double) | CoreThrew

  /** The sampled usage of one core: 0 without a counter or on an exception, else the sanitised reading. */
  function CoreSample(present: bool, r: CoreRead): (u: real)
    ensures 0.0 <= u <= 100.0
    ensures !present || r.CoreThrew? ==> u == 0.0
    ensures present && r.CoreValue? && r.v.Finite? && 0.0 <= r.v.value <= 100.0 ==> u == r.v.value
  {
    if !present then 0.0
    else match r
      case CoreThrew => 0.0
      case CoreValue(v) => Sensors.SanitizePercent(v)
  }

  /** One sample per counter slot, in slot order. */
  function CoreSamples(slots: seq<bool>, read: nat -> CoreRead): (us: seq<real>)
    ensures |us| == |slots|
    ensures forall i :: 0 <= i < |us| ==> 0.0 <= us[i] <= 100.0
    decreases |slots|
  {
    if slots == [] then []
    else CoreSamples(slots[..|slots| - 1], read) + [CoreSample(slots[|slots| - 1], read(|slots| - 1))]
  }

  /** The cache refreshes when it was never filled or is more than 800 ms old. */
  const PerCoreRefreshMs := 800

  predicate CacheExpired(last: Option<int>, nowMs: int) {
    last.None? || nowMs - last.value > PerCoreRefreshMs
  }

  // ---------------------------------------------------------------------------
  // GPU and drive lists padded with emulated entries
  // ---------------------------------------------------------------------------

  /** The debug count when it is set (>= 0), else the real count. */
  function TargetCount(debugCount: int, realCount: nat): (t: int)
    ensures debugCount >= 0 ==> t == debugCount
    ensures debugCount < 0 ==> t == realCount
  {
    if debugCount >= 0 then debugCount else realCount
  }

  /** One GPU as the hardware library reports it; the memory text is already formatted. */
  datatype GpuReading = GpuReading(
    name: string,
    load: Option<Double>,
    temperature: Option<real>,
    memory: string,
    dedicatedMemory: string)

  /** A real GPU entry: usage sanitised, temperature truncated, a new object with the given id. */
  function RealGpu(h: GpuReading, id: nat): (g: GpuInfo)
    ensures g.id == id && g.name == h.name && g.memory == h.memory
    ensures 0.0 <= g.usage <= 100.0
    ensures h.load.None? ==> g.usage == 0.0
    ensures h.temperature.None? ==> g.temperature == 0
  {
    GpuInfo(id, h.name, Sensors.SanitizePercent(h.load.GetOr(Finite(0.0))),
            Settings.TruncateToInt(h.temperature.GetOr(0.0)), h.memory, h.dedicatedMemory)
  }

  /** An emulated GPU: index-based name, idle, no memory in use. */
  function EmulatedGpu(i: nat, id: nat): (g: GpuInfo)
    ensures g.id == id && g.usage == 0.0 && g.temperature == 0
    ensures g.name == "Emulated GPU " + NatToString(i)
  {
    GpuInfo(id, "Emulated GPU " + NatToString(i), 0.0, 0, "0.0 GB / 0.0 GB", "")
  }

  /** A real drive entry: its activity from the smoothing table (0 when absent). */
  function RealDrive(d: DriveEntry, activity: map<string, real>, systemRoot: string, id: nat): (s: StorageInfo)
    ensures s.id == id && s.name == DriveLetter(d) + " " + d.volumeLabel
    ensures s.usage == Lookup(activity, DriveLetter(d)).GetOr(0.0)
    ensures s.isSystemDisk <==> EqualsIgnoreCase(d.root, systemRoot)
  {
    StorageInfo(id, DriveLetter(d) + " " + d.volumeLabel, Lookup(activity, DriveLetter(d)).GetOr(0.0),
                d.space, d.driveFormat, EqualsIgnoreCase(d.root, systemRoot))
  }

  /** An emulated drive: "E:<i> Emulated", idle, NTFS, not the system disk. */
  function EmulatedDrive(i: nat, id: nat): (s: StorageInfo)
    ensures s.id == id && s.usage == 0.0 && !s.isSystemDisk
    ensures s.name == "E:" + NatToString(i) + " Emulated"
  {
    StorageInfo(id, "E:" + NatToString(i) + " Emulated", 0.0, "0.0 GB / 0.0 GB", "NTFS", false)
  }

  /** The drives that are listed, in enumeration order. */
  function ListedDrives(drives: seq<DriveEntry>): (r: seq<DriveEntry>)
    ensures forall k :: 0 <= k < |r| ==> r[k] in drives && IsListed(r[k])
    ensures forall d :: d in drives && IsListed(d) ==> d in r
  {
    Filter(drives, IsListed)
  }

  // ---------------------------------------------------------------------------
  // Network histories and per-process byte deltas
  // ---------------------------------------------------------------------------

  /** The upload and download histories keep the 30 newest samples. */
  const NetworkHistoryCapacity := 30

  /** List.Add, then RemoveAt(0) once the list holds more than 30. */
  function PushNetworkSample(h: seq<real>, x: real): (r: seq<real>)
    ensures r != [] && r[|r| - 1] == x
    ensures |r| <= NetworkHistoryCapacity || |r| == |h|
  {
    var a := h + [x];
    if |a| > NetworkHistoryCapacity then a[1..] else a
  }

  /** A history of at most 30 samples keeps the 30 newest once a sample joins. */
  lemma PushNetworkSampleNewest(h: seq<real>, x: real)
    requires |h| <= NetworkHistoryCapacity
    ensures PushNetworkSample(h, x) == Performance.Newest(h + [x], NetworkHistoryCapacity)
  {
  }

  /** Growth of a byte counter since the previous snapshot, never negative. */
  function Delta(cur: int, prev: int): (d: nat)
    ensures d >= cur - prev
    ensures cur >= prev ==> d == cur - prev
    ensures cur <= prev ==> d == 0
  {
    if cur > prev then cur - prev else 0
  }

  /** The elapsed time in seconds, at least a millisecond. */
  function ElapsedSeconds(elapsedMs: int): (s: real)
    ensures s >= 0.001
    ensures elapsedMs >= 1 ==> s == elapsedMs as real / 1000.0
  {
    Max(0.001, elapsedMs as real / 1000.0)
  }

  /** The identifier of a network interface. */
  type NicId = string

  /** The live state of one network interface. */
  datatype NicLive = NicLive(isUp: bool, bytesSent: int, bytesReceived: int)

  /** The fold of the interface loop: byte growth so far and the updated last-seen counters. */
  datatype NicPass = NicPass(sent: int, received: int, lastSent: map<NicId, int>, lastReceived: map<NicId, int>, threw: bool)

  /**
   * The interface loop over the up interfaces in order: each adds its growth
   * since the last seen counters and records the live ones; an interface
   * without last-seen counters throws (a missing dictionary key).
   */
  function NicPassOver(ids: seq<NicId>, live: NicId -> NicLive, acc: NicPass): (p: NicPass)
    decreases |ids|
  {
    if ids == [] then acc
    else
      var id := ids[0];
      if id !in acc.lastSent || id !in acc.lastReceived then acc.(threw := true)
      else
        var l := live(id);
        NicPassOver(ids[1..], live,
          NicPass(acc.sent + (l.bytesSent - acc.lastSent[id]), acc.received + (l.bytesReceived - acc.lastReceived[id]),
                  acc.lastSent[id := l.bytesSent], acc.lastReceived[id := l.bytesReceived], false))
  }

  /** Every interface has last-seen counters in both tables. */
  predicate Recorded(ids: seq<NicId>, lastSent: map<NicId, int>, lastReceived: map<NicId, int>) {
    forall id :: id in ids ==> id in lastSent && id in lastReceived
  }

  /**
   * With every interface recorded the loop does not throw, and afterwards it
   * has recorded the live counters of every interface it read.
   */
  lemma {:induction false} NicPassRecords(ids: seq<NicId>, live: NicId -> NicLive, acc: NicPass)
    requires !acc.threw
    requires Recorded(ids, acc.lastSent, acc.lastReceived)
    ensures var p := NicPassOver(ids, live, acc);
      !p.threw &&
      (forall k :: 0 <= k < |ids| ==>
        ids[k] in p.lastSent && p.lastSent[ids[k]] == live(ids[k]).bytesSent &&
        ids[k] in p.lastReceived && p.lastReceived[ids[k]] == live(ids[k]).bytesReceived)
    decreases |ids|
  {
    if ids != [] {
      var id := ids[0];
      var l := live(id);
      var next := NicPass(acc.sent + (l.bytesSent - acc.lastSent[id]), acc.received + (l.bytesReceived - acc.lastReceived[id]),
                          acc.lastSent[id := l.bytesSent], acc.lastReceived[id := l.bytesReceived], false);
      var tail := ids[1..];
      forall k | 0 <= k < |tail| ensures tail[k] in next.lastSent && tail[k] in next.lastReceived {
        assert tail[k] == ids[k + 1];
      }
      NicPassRecords(tail, live, next);
      var p := NicPassOver(tail, live, next);
      forall k | 0 <= k < |ids|
        ensures ids[k] in p.lastSent && p.lastSent[ids[k]] == live(ids[k]).bytesSent
        ensures ids[k] in p.lastReceived && p.lastReceived[ids[k]] == live(ids[k]).bytesReceived
      {
        if k > 0 {
          assert ids[k] == tail[k - 1];
        } else if id in tail {
          var j :| 0 <= j < |tail| && tail[j] == id;
        } else {
          NicPassKeeps(tail, live, next, id);
        }
      }
    }
  }

  /** Interfaces the loop does not read keep their last-seen counters. */
  lemma {:induction false} NicPassKeeps(ids: seq<NicId>, live: NicId -> NicLive, acc: NicPass, k: NicId)
    requires k !in ids
    ensures var p := NicPassOver(ids, live, acc);
      (k in p.lastSent <==> k in acc.lastSent) && (k in acc.lastSent ==> p.lastSent[k] == acc.lastSent[k]) &&
      (k in p.lastReceived <==> k in acc.lastReceived) && (k in acc.lastReceived ==> p.lastReceived[k] == acc.lastReceived[k])
    decreases |ids|
  {
    if ids != [] {
      var id := ids[0];
      if id in acc.lastSent && id in acc.lastReceived {
        var l := live(id);
        NicPassKeeps(ids[1..], live,
          NicPass(acc.sent + (l.bytesSent - acc.lastSent[id]), acc.received + (l.bytesReceived - acc.lastReceived[id]),
                  acc.lastSent[id := l.bytesSent], acc.lastReceived[id := l.bytesReceived], false), k);
      }
    }
  }

  /** The sum of the live sent counters of distinct interfaces, and of their last-seen ones. */
  function LiveSent(ids: seq<NicId>, live: NicId -> NicLive): int
    decreases |ids|
  {
    if ids == [] then 0 else live(ids[0]).bytesSent + LiveSent(ids[1..], live)
  }

  function LastSent(ids: seq<NicId>, last: map<NicId, int>): int
    requires forall k :: 0 <= k < |ids| ==> ids[k] in last
    decreases |ids|
  {
    if ids == [] then 0 else last[ids[0]] + LastSent(ids[1..], last)
  }

  lemma {:induction false} LastSentSame(ids: seq<NicId>, a: map<NicId, int>, b: map<NicId, int>)
    requires forall k :: 0 <= k < |ids| ==> ids[k] in a && ids[k] in b && a[ids[k]] == b[ids[k]]
    ensures LastSent(ids, a) == LastSent(ids, b)
    decreases |ids|
  {
    if ids != [] {
      LastSentSame(ids[1..], a, b);
    }
  }

  /**
   * For distinct, recorded interfaces the uploaded bytes of the loop are the
   * growth of their total sent counter since the last sample.
   */
  lemma {:induction false} NicPassGrowth(ids: seq<NicId>, live: NicId -> NicLive, acc: NicPass)
    requires !acc.threw
    requires Distinct(ids)
    requires Recorded(ids, acc.lastSent, acc.lastReceived)
    ensures NicPassOver(ids, live, acc).sent == acc.sent + LiveSent(ids, live) - LastSent(ids, acc.lastSent)
    decreases |ids|
  {
    if ids != [] {
      var id := ids[0];
      var l := live(id);
      var next := NicPass(acc.sent + (l.bytesSent - acc.lastSent[id]), acc.received + (l.bytesReceived - acc.lastReceived[id]),
                          acc.lastSent[id := l.bytesSent], acc.lastReceived[id := l.bytesReceived], false);
      var tail := ids[1..];
      forall k | 0 <= k < |tail| ensures tail[k] in next.lastSent && tail[k] in next.lastReceived && tail[k] != id {
        assert tail[k] == ids[k + 1];
      }
      assert Distinct(tail) by {
        forall a, b | 0 <= a < b < |tail| ensures tail[a] != tail[b] {
          assert tail[a] == ids[a + 1] && tail[b] == ids[b + 1];
        }
      }
      NicPassGrowth(tail, live, next);
      LastSentSame(tail, next.lastSent, acc.lastSent);
    }
  }

  /** One row of a per-process network byte table: bytes sent and received so far. */
  datatype EtwTotals = EtwTotals(pid: int, sent: int, received: int)

  /** The per-process rates of one snapshot interval, in bytes per second. */
  datatype ProcessRate = ProcessRate(pid: int, upBps: real, downBps: real)

  /** TryGetValue with the default (0, 0) for a process not in the previous snapshot. */
  function PreviousTotals(last: map<int, EtwTotals>, pid: int): (t: EtwTotals)
    ensures pid !in last ==> t.sent == 0 && t.received == 0
  {
    if pid in last then last[pid] else EtwTotals(pid, 0, 0)
  }

  /** The snapshot as a dictionary by pid. */
  function TotalsMap(totals: seq<EtwTotals>): (m: map<int, EtwTotals>)
    ensures forall k :: 0 <= k < |totals| ==> totals[k].pid in m
    ensures forall pid :: pid in m ==> m[pid].pid == pid
    decreases |totals|
  {
    if totals == [] then map[]
    else
      var m0 := TotalsMap(totals[..|totals| - 1]);
      var t := totals[|totals| - 1];
      assert forall k :: 0 <= k < |totals| - 1 ==> totals[..|totals| - 1][k] == totals[k];
      m0[t.pid := t]
  }

  /** The rate of each process over the interval: its byte growth divided by the seconds elapsed. */
  function RateOf(t: EtwTotals, last: map<int, EtwTotals>, secs: real): (r: ProcessRate)
    requires secs > 0.0
    ensures r.pid == t.pid && r.upBps >= 0.0 && r.downBps >= 0.0
    ensures r.upBps * secs == Delta(t.sent, PreviousTotals(last, t.pid).sent) as real
    ensures r.downBps * secs == Delta(t.received, PreviousTotals(last, t.pid).received) as real
  {
    var prev := PreviousTotals(last, t.pid);
    ProcessRate(t.pid, Delta(t.sent, prev.sent) as real / secs, Delta(t.received, prev.received) as real / secs)
  }

  /** The rates of the snapshot's rows, in table order. */
  function RatesOf(totals: seq<EtwTotals>, last: map<int, EtwTotals>, secs: real): (rates: seq<ProcessRate>)
    requires secs > 0.0
    ensures |rates| == |totals|
    ensures forall k :: 0 <= k < |totals| ==> rates[k] == RateOf(totals[k], last, secs)
    decreases |totals|
  {
    if totals == [] then []
    else RatesOf(totals[..|totals| - 1], last, secs) + [RateOf(totals[|totals| - 1], last, secs)]
  }

  /** Total growth of the sent (or received) bytes over the snapshot. */
  function SentGrowth(totals: seq<EtwTotals>, last: map<int, EtwTotals>): (n: nat)
    decreases |totals|
  {
    if totals == [] then 0
    else SentGrowth(totals[..|totals| - 1], last) + Delta(totals[|totals| - 1].sent, PreviousTotals(last, totals[|totals| - 1].pid).sent)
  }

  function ReceivedGrowth(totals: seq<EtwTotals>, last: map<int, EtwTotals>): (n: nat)
    decreases |totals|
  {
    if totals == [] then 0
    else ReceivedGrowth(totals[..|totals| - 1], last) + Delta(totals[|totals| - 1].received, PreviousTotals(last, totals[|totals| - 1].pid).received)
  }

  /** Megabits per second as the trace path computes them: bytes * 8 / 1024^2 per second. */
  function EtwMbps(bytes: nat, secs: real): (mbps: real)
    requires secs > 0.0
    ensures mbps >= 0.0
    ensures bytes == 0 ==> mbps == 0.0
  {
    ((bytes as real / secs) * 8.0) / (1024.0 * 1024.0)
  }

  /** The key of the top list: upload plus download rate. */
  function TotalRate(r: ProcessRate): real {
    r.upBps + r.downBps
  }

  /** OrderByDescending(up + down) followed by Take(max(0, topN)). */
  function TopRates(rates: seq<ProcessRate>, topN: int): (top: seq<ProcessRate>)
    ensures |top| == if topN <= 0 then 0 else if |rates| <= topN then |rates| else topN
    ensures forall i, j :: 0 <= i < j < |top| ==> TotalRate(top[i]) >= TotalRate(top[j])
    ensures forall i :: 0 <= i < |top| ==> top[i] in rates
  {
    var sorted := SortDescending(rates, TotalRate);
    var n := if topN <= 0 then 0 else if |rates| <= topN then |rates| else topN;
    forall i | 0 <= i < n ensures sorted[i] in rates {
      assert sorted[i] in multiset(sorted);
    }
    sorted[..n]
  }

  /** The first snapshot (or a clock that did not advance) only records the table. */
  predicate NoInterval(last: Option<int>, nowMs: int) {
    last.None? || nowMs - last.value <= 0
  }

  /**
   * What TryComputeEtwRates reports against the previous snapshot: rates
   * exactly when the table is not empty and time has advanced, then the
   * interval's growth in megabits per second and the busiest processes;
   * otherwise nothing.
   */
  predicate TraceRates(totals: seq<EtwTotals>, last: map<int, EtwTotals>, snapshot: Option<int>, nowMs: int, topN: int,
                       ok: bool, top: seq<ProcessRate>, uploadMbps: real, downloadMbps: real) {
    && (ok <==> totals != [] && !NoInterval(snapshot, nowMs))
    && (!ok ==> top == [] && uploadMbps == 0.0 && downloadMbps == 0.0)
    && (ok ==>
          var secs := ElapsedSeconds(nowMs - snapshot.value);
          && uploadMbps == EtwMbps(SentGrowth(totals, last), secs)
          && downloadMbps == EtwMbps(ReceivedGrowth(totals, last), secs)
          && top == TraceTop(totals, last, snapshot.value, nowMs, topN))
  }

  /** The busiest processes of a trace interval that has a previous snapshot. */
  function TraceTop(totals: seq<EtwTotals>, last: map<int, EtwTotals>, snapshotMs: int, nowMs: int, topN: int): (top: seq<ProcessRate>)
    requires nowMs - snapshotMs > 0
    ensures |top| <= |totals|
  {
    TopRates(RatesOf(totals, last, ElapsedSeconds(nowMs - snapshotMs)), topN)
  }

  /** The trace's busiest processes, or the socket-presence list when the trace names none. */
  function TopOr(top: seq<ProcessRate>, socketTop: seq<ProcessRate>): (r: seq<ProcessRate>)
    ensures r == [] ==> top == [] && socketTop == []
    ensures top != [] ==> r == top
  {
    if |top| > 0 then top else socketTop
  }

  /** One row of the per-process disk byte table. */
  datatype DiskTotals = DiskTotals(pid: int, bytes: int)

  function PreviousDiskBytes(last: map<int, int>, pid: int): int {
    if pid in last then last[pid] else 0
  }

  function DiskTotalsMap(totals: seq<DiskTotals>): (m: map<int, int>)
    ensures forall k :: 0 <= k < |totals| ==> totals[k].pid in m
    decreases |totals|
  {
    if totals == [] then map[]
    else
      var t := totals[|totals| - 1];
      assert forall k :: 0 <= k < |totals| - 1 ==> totals[..|totals| - 1][k] == totals[k];
      DiskTotalsMap(totals[..|totals| - 1])[t.pid := t.bytes]
  }

  /** The disk rate of one process over the interval. */
  function DiskRate(t: DiskTotals, last: map<int, int>, secs: real): (bps: real)
    requires secs > 0.0
    ensures bps >= 0.0
    ensures bps * secs == Delta(t.bytes, PreviousDiskBytes(last, t.pid)) as real
  {
    Delta(t.bytes, PreviousDiskBytes(last, t.pid)) as real / secs
  }

  /** Index i has the highest rate and every row before it a lower one. */
  predicate FirstFastest(totals: seq<DiskTotals>, last: map<int, int>, secs: real, i: int)
    requires secs > 0.0
  {
    && 0 <= i < |totals|
    && (forall k :: 0 <= k < |totals| ==> DiskRate(totals[k], last, secs) <= DiskRate(totals[i], last, secs))
    && (forall k :: 0 <= k < i ==> DiskRate(totals[k], last, secs) < DiskRate(totals[i], last, secs))
  }

  /** A process name as the name lookup reports it: ".exe" appended unless present; the pid when the lookup fails. */
  function ExeName(name: Option<string>, pid: int): (n: string)
    ensures name.Some? ==> EndsWithIgnoreCase(n, ".exe") && StartsWith(n, name.value)
    ensures name.None? ==> n == IntToString(pid)
  {
    match name
    case None => IntToString(pid)
    case Some(pn) =>
      if EndsWithIgnoreCase(pn, ".exe") then pn
      else
        assert (pn + ".exe")[..|pn|] == pn;
        assert (pn + ".exe")[|pn + ".exe"| - 4..] == ".exe";
        pn + ".exe"
  }

  /** The network figures GetNetworkInfo reports (rates in megabits per second; text formatting left out). */
  datatype NetworkReport = NetworkReport(
    uploadMbps: real,
    downloadMbps: real,
    uploadHistory: seq<real>,
    downloadHistory: seq<real>,
    topProcesses: seq<ProcessRate>,
    status: string,
    fromTrace: bool)

  /** The status line: "Connected" when some interface is up. */
  function LinkStatus(up: seq<NicId>): (status: string)
    ensures status == "Connected" <==> up != []
    ensures status != ""
  {
    if |up| > 0 then "Connected" else "Disconnected"
  }

  /** The interface fallback skips a sample when less than 100 ms have passed. */
  const MinNetworkIntervalMs := 100

  /** The up interfaces, in enumeration order. */
  function UpInterfaces(ids: seq<NicId>, live: NicId -> NicLive): (up: seq<NicId>)
    ensures |up| <= |ids|
    decreases |ids|
  {
    if ids == [] then []
    else (if live(ids[0]).isUp then [ids[0]] else []) + UpInterfaces(ids[1..], live)
  }

  /** An interface is kept exactly when it is known and up. */
  lemma {:induction false} UpInterfacesMembers(ids: seq<NicId>, live: NicId -> NicLive)
    ensures forall id :: id in UpInterfaces(ids, live) <==> id in ids && live(id).isUp
    decreases |ids|
  {
    if ids != [] {
      UpInterfacesMembers(ids[1..], live);
      assert ids == [ids[0]] + ids[1..];
    }
  }

  /** Filtering keeps distinct interfaces distinct. */
  lemma {:induction false} UpInterfacesDistinct(ids: seq<NicId>, live: NicId -> NicLive)
    requires Distinct(ids)
    ensures Distinct(UpInterfaces(ids, live))
    decreases |ids|
  {
    if ids != [] {
      var tail := ids[1..];
      assert Distinct(tail) by {
        forall a, b | 0 <= a < b < |tail| ensures tail[a] != tail[b] {
          assert tail[a] == ids[a + 1] && tail[b] == ids[b + 1];
        }
      }
      UpInterfacesDistinct(tail, live);
      UpInterfacesMembers(tail, live);
      var rest := UpInterfaces(tail, live);
      assert ids[0] !in tail by {
        forall j | 0 <= j < |tail| ensures tail[j] != ids[0] {
          assert tail[j] == ids[j + 1];
        }
      }
    }
  }

  /**
   * The fallback's uploaded bytes: over distinct, recorded interfaces the
   * loop adds up exactly the growth of their sent counters, without throwing.
   */
  lemma NicSentIsGrowth(ids: seq<NicId>, live: NicId -> NicLive, lastSent: map<NicId, int>, lastReceived: map<NicId, int>)
    requires Distinct(ids) && Recorded(ids, lastSent, lastReceived)
    ensures var up := UpInterfaces(ids, live);
      var p := NicPassOver(up, live, NicPass(0, 0, lastSent, lastReceived, false));
      && Recorded(up, lastSent, lastReceived)
      && !p.threw
      && p.sent == LiveSent(up, live) - LastSent(up, lastSent)
  {
    var up := UpInterfaces(ids, live);
    var start := NicPass(0, 0, lastSent, lastReceived, false);
    UpInterfacesMembers(ids, live);
    forall k | 0 <= k < |up| ensures up[k] in lastSent && up[k] in lastReceived {
      assert up[k] in up;
      var j :| 0 <= j < |ids| && ids[j] == up[k];
    }
    UpInterfacesDistinct(ids, live);
    NicPassRecords(up, live, start);
    NicPassGrowth(up, live, start);
  }

  /**
   * After the interface loop every known interface is still recorded: the up
   * ones hold their live counters, the others their previous ones.
   */
  lemma KeepsRecorded(ids: seq<NicId>, live: NicId -> NicLive, lastSent: map<NicId, int>, lastReceived: map<NicId, int>)
    requires Recorded(ids, lastSent, lastReceived)
    ensures var p := NicPassOver(UpInterfaces(ids, live), live, NicPass(0, 0, lastSent, lastReceived, false));
      && !p.threw
      && Recorded(ids, p.lastSent, p.lastReceived)
      && (forall k :: 0 <= k < |ids| && live(ids[k]).isUp ==>
            p.lastSent[ids[k]] == live(ids[k]).bytesSent && p.lastReceived[ids[k]] == live(ids[k]).bytesReceived)
      && (forall k :: 0 <= k < |ids| && !live(ids[k]).isUp ==>
            p.lastSent[ids[k]] == lastSent[ids[k]] && p.lastReceived[ids[k]] == lastReceived[ids[k]])
  {
    var up := UpInterfaces(ids, live);
    var start := NicPass(0, 0, lastSent, lastReceived, false);
    UpInterfacesMembers(ids, live);
    forall k | 0 <= k < |up| ensures up[k] in lastSent && up[k] in lastReceived {
      assert up[k] in up;
      var j :| 0 <= j < |ids| && ids[j] == up[k];
    }
    NicPassRecords(up, live, start);
    var p := NicPassOver(up, live, start);
    forall k | 0 <= k < |ids|
      ensures ids[k] in p.lastSent && ids[k] in p.lastReceived
      ensures live(ids[k]).isUp ==> p.lastSent[ids[k]] == live(ids[k]).bytesSent && p.lastReceived[ids[k]] == live(ids[k]).bytesReceived
      ensures !live(ids[k]).isUp ==> p.lastSent[ids[k]] == lastSent[ids[k]] && p.lastReceived[ids[k]] == lastReceived[ids[k]]
    {
      if live(ids[k]).isUp {
        var j :| 0 <= j < |up| && up[j] == ids[k];
      } else {
        NicPassKeeps(up, live, start, ids[k]);
      }
    }
  }

  /**
   * A sample from the per-process tables: the interface counters and the
   * sample time stay, the rates join the histories.
   */
  predicate TraceStep(ids: seq<NicId>, live: NicId -> NicLive, top: seq<ProcessRate>, s: NicState, next: NicState,
                     report: NetworkReport) {
    && report.fromTrace
    && report.topProcesses == top
    && report.status == LinkStatus(UpInterfaces(ids, live))
    && next == s.(uploadHistory := PushNetworkSample(s.uploadHistory, report.uploadMbps),
                  downloadHistory := PushNetworkSample(s.downloadHistory, report.downloadMbps))
    && report.uploadHistory == next.uploadHistory && report.downloadHistory == next.downloadHistory
  }

  /** The interface fallback's state: last-seen counters, the sample time and the histories. */
  datatype NicState = NicState(
    lastSent: map<NicId, int>,
    lastReceived: map<NicId, int>,
    sampleMs: int,
    uploadHistory: seq<real>,
    downloadHistory: seq<real>)

  /** Every known interface recorded, and histories of at most 30 samples. */
  predicate NicStateValid(ids: seq<NicId>, s: NicState) {
    && Recorded(ids, s.lastSent, s.lastReceived)
    && |s.uploadHistory| <= NetworkHistoryCapacity
    && |s.downloadHistory| <= NetworkHistoryCapacity
  }

  /**
   * One step of the interface fallback: below 100 ms only the sample time
   * moves and the rates are zero; otherwise the loop's growth over the
   * elapsed seconds, the loop's last-seen tables, and one sample in each
   * history.
   */
  predicate InterfaceStep(ids: seq<NicId>, live: NicId -> NicLive, socketTop: seq<ProcessRate>, s: NicState, nowMs: int,
                         next: NicState, report: NetworkReport) {
    && !report.fromTrace
    && next.sampleMs == nowMs
    && report.uploadHistory == next.uploadHistory && report.downloadHistory == next.downloadHistory
    && (nowMs - s.sampleMs < MinNetworkIntervalMs ==>
          && report.uploadMbps == 0.0 && report.downloadMbps == 0.0
          && report.topProcesses == [] && report.status == ""
          && next == s.(sampleMs := nowMs))
    && (nowMs - s.sampleMs >= MinNetworkIntervalMs ==>
          var secs := (nowMs - s.sampleMs) as real / 1000.0;
          var p := NicPassOver(UpInterfaces(ids, live), live, NicPass(0, 0, s.lastSent, s.lastReceived, false));
          && report.topProcesses == socketTop
          && report.status == LinkStatus(UpInterfaces(ids, live))
          && report.uploadMbps == NicMbps(p.sent, secs) && report.downloadMbps == NicMbps(p.received, secs)
          && next.lastSent == p.lastSent && next.lastReceived == p.lastReceived
          && next.uploadHistory == PushNetworkSample(s.uploadHistory, report.uploadMbps)
          && next.downloadHistory == PushNetworkSample(s.downloadHistory, report.downloadMbps))
  }

  /** A step of the fallback keeps every known interface recorded and the histories bounded. */
  lemma InterfaceStepValid(ids: seq<NicId>, live: NicId -> NicLive, socketTop: seq<ProcessRate>, s: NicState, nowMs: int,
                           next: NicState, report: NetworkReport)
    requires NicStateValid(ids, s)
    requires InterfaceStep(ids, live, socketTop, s, nowMs, next, report)
    ensures NicStateValid(ids, next)
  {
    if nowMs - s.sampleMs >= MinNetworkIntervalMs {
      KeepsRecorded(ids, live, s.lastSent, s.lastReceived);
    }
  }

  /**
   * With no known interfaces, the state the service is constructed in and
   * keeps (nothing calls EnsureNetworkInterfaces), the fallback measures
   * nothing and never reports a connection.
   */
  lemma FallbackWithoutInterfaces(live: NicId -> NicLive, socketTop: seq<ProcessRate>, s: NicState, nowMs: int,
                                  next: NicState, report: NetworkReport)
    requires InterfaceStep([], live, socketTop, s, nowMs, next, report)
    ensures report.uploadMbps == 0.0 && report.downloadMbps == 0.0
    ensures report.status != "Connected"
  {
  }

  /** The same on the trace path: the rates come from the trace, the status says disconnected. */
  lemma TraceWithoutInterfaces(live: NicId -> NicLive, top: seq<ProcessRate>, s: NicState, next: NicState, report: NetworkReport)
    requires TraceStep([], live, top, s, next, report)
    ensures report.status == "Disconnected"
  {
  }

  /**
   * Once distinct interfaces are enumerated and recorded, a measured
   * fallback sample is the growth of the up interfaces' sent counters over
   * the elapsed seconds, and the status is connected exactly when one of
   * them is up.
   */
  lemma FallbackMeasuresGrowth(ids: seq<NicId>, live: NicId -> NicLive, socketTop: seq<ProcessRate>, s: NicState, nowMs: int,
                               next: NicState, report: NetworkReport)
    requires Distinct(ids) && NicStateValid(ids, s)
    requires InterfaceStep(ids, live, socketTop, s, nowMs, next, report)
    requires nowMs - s.sampleMs >= MinNetworkIntervalMs
    ensures var up := UpInterfaces(ids, live);
      && Recorded(up, s.lastSent, s.lastReceived)
      && report.uploadMbps == NicMbps(LiveSent(up, live) - LastSent(up, s.lastSent), (nowMs - s.sampleMs) as real / 1000.0)
    ensures report.status == "Connected" <==> exists k :: 0 <= k < |ids| && live(ids[k]).isUp
  {
    var up := UpInterfaces(ids, live);
    var p := NicPassOver(up, live, NicPass(0, 0, s.lastSent, s.lastReceived, false));
    assert report.uploadMbps == NicMbps(p.sent, (nowMs - s.sampleMs) as real / 1000.0);
    assert report.status == LinkStatus(up);
    NicSentIsGrowth(ids, live, s.lastSent, s.lastReceived);
    SomeInterfaceUp(ids, live);
  }

  /** The up list is non-empty exactly when some known interface is up. */
  lemma SomeInterfaceUp(ids: seq<NicId>, live: NicId -> NicLive)
    ensures UpInterfaces(ids, live) != [] <==> exists k :: 0 <= k < |ids| && live(ids[k]).isUp
  {
    UpInterfacesMembers(ids, live);
    var up := UpInterfaces(ids, live);
    if k :| 0 <= k < |ids| && live(ids[k]).isUp {
      assert ids[k] in up;
    }
    if up != [] {
      assert up[0] in up;
    }
  }

  /** NIC megabits per second: bytes * 8 / 10^6 per second. */
  function NicMbps(bytes: int, secs: real): (mbps: real)
    requires secs > 0.0
    ensures bytes >= 0 ==> mbps >= 0.0
    ensures bytes == 0 ==> mbps == 0.0
  {
    ((bytes as real / secs) * 8.0) / 1000000.0
  }

  // ---------------------------------------------------------------------------
  // The service
  // ---------------------------------------------------------------------------

  class SystemMonitorService {
    // Drive activity from idle-time counters.
    var disableDiskIdleCounters: bool
    /** The drive letters of _idleCountersByDrive, in insertion order. */
    var idleCounterDrives: seq<string>
    var lastDriveActivity: map<string, real>

    // Per-core usage counters and their cache.
    /** None until the counters exist; then whether each slot holds a counter. */
    var perCoreSlots: Option<seq<bool>>
    var lastPerCoreSample: Option<int>
    var lastPerCoreValues: seq<real>

    // Interface fallback for the network rates.
    var networkInterfaces: seq<NicId>
    var lastBytesSent: map<NicId, int>
    var lastBytesReceived: map<NicId, int>
    var lastNetworkSampleMs: int
    var uploadHistory: seq<real>
    var downloadHistory: seq<real>

    // Snapshots of the per-process byte tables.
    var etwLastTotals: map<int, EtwTotals>
    var etwLastSnapshot: Option<int>
    var etwDiskLastTotals: map<int, int>
    var etwDiskLastSnapshot: Option<int>

    /** What every method keeps. */
    ghost predicate Valid()
      reads this`disableDiskIdleCounters, this`idleCounterDrives, this`lastDriveActivity, this`lastPerCoreValues,
        this`uploadHistory, this`downloadHistory, this`networkInterfaces, this`lastBytesSent, this`lastBytesReceived
    {
      DrivesValid() && CoresValid() && HistoriesValid() && InterfacesValid()
    }

    /** Counters are only kept while enabled, once per letter; activities are percentages. */
    ghost predicate DrivesValid()
      reads this`disableDiskIdleCounters, this`idleCounterDrives, this`lastDriveActivity
    {
      && (disableDiskIdleCounters ==> idleCounterDrives == [])
      && Distinct(idleCounterDrives)
      && ActivityBounded(lastDriveActivity)
    }

    /** The cached per-core usages are percentages. */
    ghost predicate CoresValid()
      reads this`lastPerCoreValues
    {
      forall i :: 0 <= i < |lastPerCoreValues| ==> 0.0 <= lastPerCoreValues[i] <= 100.0
    }

    /** The histories hold at most 30 samples. */
    ghost predicate HistoriesValid()
      reads this`uploadHistory, this`downloadHistory
    {
      |uploadHistory| <= NetworkHistoryCapacity && |downloadHistory| <= NetworkHistoryCapacity
    }

    /** Every known interface has last-seen counters. */
    ghost predicate InterfacesValid()
      reads this`networkInterfaces, this`lastBytesSent, this`lastBytesReceived
    {
      Recorded(networkInterfaces, lastBytesSent, lastBytesReceived)
    }

    constructor (nowMs: int)
      ensures Valid()
      ensures !disableDiskIdleCounters && idleCounterDrives == [] && lastDriveActivity == map[]
      ensures perCoreSlots.None? && lastPerCoreSample.None? && lastPerCoreValues == []
      ensures networkInterfaces == [] && lastBytesSent == map[] && lastBytesReceived == map[]
      ensures lastNetworkSampleMs == nowMs && uploadHistory == [] && downloadHistory == []
      ensures etwLastTotals == map[] && etwLastSnapshot.None?
      ensures etwDiskLastTotals == map[] && etwDiskLastSnapshot.None?
    {
      disableDiskIdleCounters := false;
      idleCounterDrives := [];
      lastDriveActivity := map[];
      perCoreSlots := None;
      lastPerCoreSample := None;
      lastPerCoreValues := [];
      networkInterfaces := [];
      lastBytesSent := map[];
      lastBytesReceived := map[];
      lastNetworkSampleMs := nowMs;
      uploadHistory := [];
      downloadHistory := [];
      etwLastTotals := map[];
      etwLastSnapshot := None;
      etwDiskLastTotals := map[];
      etwDiskLastSnapshot := None;
    }

    /**
     * EnsureDiskCounters: nothing once disabled or while counters exist;
     * otherwise one counter per listed drive letter whose counter opens.
     */
    method EnsureDiskCounters(drives: seq<DriveEntry>)
      modifies this`idleCounterDrives
      ensures disableDiskIdleCounters ==> idleCounterDrives == old(idleCounterDrives)
      ensures !disableDiskIdleCounters ==> idleCounterDrives == EnsuredLetters(old(idleCounterDrives), drives)
    {
      if |idleCounterDrives| > 0 || disableDiskIdleCounters {
        return;
      }
      var i := 0;
      while i < |drives|
        invariant 0 <= i <= |drives|
        invariant idleCounterDrives == CounterLetters(drives[..i])
      {
        var d := drives[i];
        assert drives[..i + 1][..i] == drives[..i];
        if IsListed(d) {
          var letter := TrimEndChar(d.name, '\\');
          if letter !in idleCounterDrives && d.counterAvailable {
            idleCounterDrives := idleCounterDrives + [letter];
          }
        }
        i := i + 1;
      }
      assert drives[..i] == drives;
    }

    /**
     * The disk loop of Update over a snapshot of the counters: the pass
     * DiskPassOver describes; a failure also clears the counters and disables
     * the path.
     */
    method RefreshDriveActivity(counter: string -> IdleRead)
      modifies this`lastDriveActivity, this`disableDiskIdleCounters, this`idleCounterDrives
      ensures old(disableDiskIdleCounters) ==>
        disableDiskIdleCounters && idleCounterDrives == old(idleCounterDrives) && lastDriveActivity == old(lastDriveActivity)
      ensures !old(disableDiskIdleCounters) ==>
        var p := DiskPassOver(old(lastDriveActivity), old(idleCounterDrives), counter);
        && lastDriveActivity == p.activity
        && disableDiskIdleCounters == p.failed
        && idleCounterDrives == (if p.failed then [] else old(idleCounterDrives))
    {
      if disableDiskIdleCounters {
        return;
      }
      var letters := idleCounterDrives;
      var i := 0;
      while i < |letters|
        invariant 0 <= i <= |letters|
        invariant !disableDiskIdleCounters && idleCounterDrives == letters
        invariant DiskPassOver(old(lastDriveActivity), letters, counter) == DiskPassOver(lastDriveActivity, letters[i..], counter)
      {
        var l := letters[i];
        assert letters[i..][0] == l && letters[i..][1..] == letters[i + 1..];
        var r := counter(l);
        if r.Failed? {
          lastDriveActivity := lastDriveActivity[l := 0.0];
          disableDiskIdleCounters := true;
          idleCounterDrives := [];
          return;
        }
        var prev := if l in lastDriveActivity then Some(lastDriveActivity[l]) else None;
        assert prev == Lookup(lastDriveActivity, l);
        lastDriveActivity := lastDriveActivity[l := Smooth(prev, DiskActivity(r.idle))];
        i := i + 1;
      }
    }

    /**
     * The drive part of Update: ensure the counters, then read them. Once the
     * path is disabled nothing changes any more.
     */
    method Update(drives: seq<DriveEntry>, counter: string -> IdleRead)
      requires Valid()
      modifies this`lastDriveActivity, this`disableDiskIdleCounters, this`idleCounterDrives
      ensures Valid()
      ensures old(disableDiskIdleCounters) ==>
        disableDiskIdleCounters && idleCounterDrives == [] && lastDriveActivity == old(lastDriveActivity)
      ensures !old(disableDiskIdleCounters) ==>
        var letters := EnsuredLetters(old(idleCounterDrives), drives);
        var p := DiskPassOver(old(lastDriveActivity), letters, counter);
        && lastDriveActivity == p.activity
        && disableDiskIdleCounters == p.failed
        && idleCounterDrives == (if p.failed then [] else letters)
    {
      EnsureDiskCounters(drives);
      DiskPassBounded(lastDriveActivity, idleCounterDrives, counter);
      RefreshDriveActivity(counter);
    }

    /** EnsurePerCoreCounters: once, one slot per logical processor, and the cache marked as never filled. */
    method EnsurePerCoreCounters(logical: nat, created: nat -> bool)
      modifies this`perCoreSlots, this`lastPerCoreSample
      ensures old(perCoreSlots).Some? ==> perCoreSlots == old(perCoreSlots) && lastPerCoreSample == old(lastPerCoreSample)
      ensures old(perCoreSlots).None? ==>
        && perCoreSlots.Some? && |perCoreSlots.value| == logical
        && (forall i :: 0 <= i < logical ==> perCoreSlots.value[i] == created(i))
        && lastPerCoreSample.None?
    {
      if perCoreSlots.Some? {
        return;
      }
      var slots: seq<bool> := [];
      var i := 0;
      while i < logical
        invariant 0 <= i <= logical
        invariant |slots| == i
        invariant forall k :: 0 <= k < i ==> slots[k] == created(k)
      {
        slots := slots + [created(i)];
        i := i + 1;
      }
      perCoreSlots := Some(slots);
      lastPerCoreSample := None;
    }

    /** The sampling loop over the per-core counters. */
    static method SampleCores(slots: seq<bool>, read: nat -> CoreRead) returns (values: seq<real>)
      ensures values == CoreSamples(slots, read)
    {
      values := [];
      var i := 0;
      while i < |slots|
        invariant 0 <= i <= |slots|
        invariant values == CoreSamples(slots[..i], read)
      {
        assert slots[..i + 1][..i] == slots[..i];
        values := values + [CoreSample(slots[i], read(i))];
        i := i + 1;
      }
      assert slots[..i] == slots;
    }

    /**
     * The per-core fallback of GetCpuInfo: with fewer sensor readings than
     * logical processors, the counters are sampled at most every 800 ms and
     * the cached samples replace the sensor readings when there are any.
     */
    method PerCoreUsages(sensorUsages: seq<real>, logical: nat, nowMs: int, created: nat -> bool, read: nat -> CoreRead)
      returns (usages: seq<real>)
      requires Valid()
      modifies this`perCoreSlots, this`lastPerCoreSample, this`lastPerCoreValues
      ensures Valid()
      ensures |sensorUsages| >= logical ==>
        usages == sensorUsages && perCoreSlots == old(perCoreSlots) &&
        lastPerCoreSample == old(lastPerCoreSample) && lastPerCoreValues == old(lastPerCoreValues)
      ensures |sensorUsages| < logical ==>
        var expired := old(perCoreSlots).None? || CacheExpired(old(lastPerCoreSample), nowMs);
        && perCoreSlots.Some?
        && (old(perCoreSlots).Some? ==> perCoreSlots == old(perCoreSlots))
        && (expired ==> lastPerCoreSample == Some(nowMs) && lastPerCoreValues == CoreSamples(perCoreSlots.value, read))
        && (!expired ==> lastPerCoreSample == old(lastPerCoreSample) && lastPerCoreValues == old(lastPerCoreValues))
        && usages == (if |lastPerCoreValues| > 0 then lastPerCoreValues else sensorUsages)
    {
      usages := sensorUsages;
      if |sensorUsages| < logical {
        EnsurePerCoreCounters(logical, created);
        if CacheExpired(lastPerCoreSample, nowMs) {
          lastPerCoreSample := Some(nowMs);
          lastPerCoreValues := SampleCores(perCoreSlots.value, read);
        }
        if |lastPerCoreValues| > 0 {
          usages := lastPerCoreValues;
        }
      }
    }

    /**
     * GetGpuInfo: the target count is the debug count when set, else the
     * number of GPUs; the first min(real, target) entries are real, the rest
     * emulated, each a new object.
     */
    method GetGpuInfo(hardware: seq<GpuReading>, debugGpuCount: int, firstId: nat) returns (gpus: seq<GpuInfo>)
      ensures var target := TargetCount(debugGpuCount, |hardware|);
        |gpus| == (if target <= 0 then 0 else target)
      ensures forall i :: 0 <= i < |gpus| && i < |hardware| ==> gpus[i] == RealGpu(hardware[i], firstId + i)
      ensures forall i :: |hardware| <= i < |gpus| ==> gpus[i] == EmulatedGpu(i, firstId + i)
    {
      gpus := [];
      var targetCount := if debugGpuCount >= 0 then debugGpuCount else |hardware|;
      if targetCount <= 0 {
        return;
      }
      var realCount := if |hardware| < targetCount then |hardware| else targetCount;
      var i := 0;
      while i < realCount
        invariant 0 <= i <= realCount
        invariant |gpus| == i
        invariant forall k :: 0 <= k < i ==> gpus[k] == RealGpu(hardware[k], firstId + k)
      {
        gpus := gpus + [RealGpu(hardware[i], firstId + i)];
        i := i + 1;
      }
      while i < targetCount
        invariant realCount <= i <= targetCount
        invariant |gpus| == i
        invariant forall k :: 0 <= k < realCount ==> gpus[k] == RealGpu(hardware[k], firstId + k)
        invariant forall k :: realCount <= k < i ==> gpus[k] == EmulatedGpu(k, firstId + k)
      {
        gpus := gpus + [EmulatedGpu(i, firstId + i)];
        i := i + 1;
      }
    }

    /**
     * GetDriveInfo: the same padding over the listed drives, each real entry
     * showing its smoothed activity.
     */
    method GetDriveInfo(drives: seq<DriveEntry>, debugDiskCount: int, systemRoot: string, firstId: nat)
      returns (infos: seq<StorageInfo>)
      ensures var listed := ListedDrives(drives);
        var target := TargetCount(debugDiskCount, |listed|);
        && |infos| == (if target <= 0 then 0 else target)
        && (forall i :: 0 <= i < |infos| && i < |listed| ==>
              infos[i] == RealDrive(listed[i], lastDriveActivity, systemRoot, firstId + i))
        && (forall i :: |listed| <= i < |infos| ==> infos[i] == EmulatedDrive(i, firstId + i))
    {
      infos := [];
      var realDrives := ListedDrives(drives);
      var targetCount := if debugDiskCount >= 0 then debugDiskCount else |realDrives|;
      if targetCount <= 0 {
        return;
      }
      var realCount := if |realDrives| < targetCount then |realDrives| else targetCount;
      var i := 0;
      while i < realCount
        invariant 0 <= i <= realCount
        invariant |infos| == i
        invariant forall k :: 0 <= k < i ==> infos[k] == RealDrive(realDrives[k], lastDriveActivity, systemRoot, firstId + k)
      {
        infos := infos + [RealDrive(realDrives[i], lastDriveActivity, systemRoot, firstId + i)];
        i := i + 1;
      }
      while i < targetCount
        invariant realCount <= i <= targetCount
        invariant |infos| == i
        invariant forall k :: 0 <= k < realCount ==> infos[k] == RealDrive(realDrives[k], lastDriveActivity, systemRoot, firstId + k)
        invariant forall k :: realCount <= k < i ==> infos[k] == EmulatedDrive(k, firstId + k)
      {
        infos := infos + [EmulatedDrive(i, firstId + i)];
        i := i + 1;
      }
    }
 
    /**
     * TryComputeEtwRates: false on an empty table; the first snapshot (or a
     * clock that did not advance) only records the table; otherwise the rates
     * of the interval and the busiest processes, and the table becomes the
     * next baseline.
     */
    method TryComputeEtwRates(topN: int, totals: seq<EtwTotals>, nowMs: int)
      returns (ok: bool, top: seq<ProcessRate>, uploadMbps: real, downloadMbps: real)
      modifies this`etwLastTotals, this`etwLastSnapshot
      ensures totals == [] ==> unchanged(this`etwLastTotals, this`etwLastSnapshot)
      ensures totals != [] ==> TraceBaseline(totals, nowMs)
      ensures TraceRates(totals, old(etwLastTotals), old(etwLastSnapshot), nowMs, topN, ok, top, uploadMbps, downloadMbps)
    {
      top, uploadMbps, downloadMbps := [], 0.0, 0.0;
      if |totals| == 0 {
        return false, top, uploadMbps, downloadMbps;
      }
      if etwLastSnapshot.None? || nowMs - etwLastSnapshot.value <= 0 {
        etwLastTotals := TotalsMap(totals);
        etwLastSnapshot := Some(nowMs);
        return false, top, uploadMbps, downloadMbps;
      }
      var secs := ElapsedSeconds(nowMs - etwLastSnapshot.value);
      var rates: seq<ProcessRate> := [];
      var sumUp: nat := 0;
      var sumDown: nat := 0;
      var i := 0;
      while i < |totals|
        invariant 0 <= i <= |totals|
        invariant rates == RatesOf(totals[..i], etwLastTotals, secs)
        invariant sumUp == SentGrowth(totals[..i], etwLastTotals)
        invariant sumDown == ReceivedGrowth(totals[..i], etwLastTotals)
      {
        var cur := totals[i];
        var prev := PreviousTotals(etwLastTotals, cur.pid);
        var deltaUp := Delta(cur.sent, prev.sent);
        var deltaDown := Delta(cur.received, prev.received);
        sumUp := sumUp + deltaUp;
        sumDown := sumDown + deltaDown;
        assert totals[..i + 1][..i] == totals[..i] && totals[..i + 1][i] == cur;
        rates := rates + [ProcessRate(cur.pid, deltaUp as real / secs, deltaDown as real / secs)];
        i := i + 1;
      }
      assert totals[..i] == totals;
      etwLastTotals := TotalsMap(totals);
      etwLastSnapshot := Some(nowMs);
      uploadMbps := ((sumUp as real / secs) * 8.0) / (1024.0 * 1024.0);
      downloadMbps := ((sumDown as real / secs) * 8.0) / (1024.0 * 1024.0);
      top := TopRates(rates, topN);
      ok := true;
    }

    /** The scan for the busiest process: a row replaces the best so far only with a strictly higher rate. */
    static method FastestDiskProcess(totals: seq<DiskTotals>, last: map<int, int>, secs: real)
      returns (maxPid: int, ghost best: nat)
      requires totals != [] && secs > 0.0
      ensures FirstFastest(totals, last, secs, best) && maxPid == totals[best].pid
      ensures exists k :: FirstFastest(totals, last, secs, k) && maxPid == totals[k].pid
    {
      var maxBps := -1.0;
      maxPid := -1;
      best := 0;
      var i := 0;
      while i < |totals|
        invariant 0 <= i <= |totals|
        invariant i == 0 ==> maxBps == -1.0 && best == 0
        invariant i > 0 ==> best < i && maxBps == DiskRate(totals[best], last, secs) && maxPid == totals[best].pid
        invariant forall k :: 0 <= k < i ==> DiskRate(totals[k], last, secs) <= maxBps
        invariant forall k :: 0 <= k < best ==> DiskRate(totals[k], last, secs) < maxBps
      {
        var cur := totals[i];
        var delta := Delta(cur.bytes, PreviousDiskBytes(last, cur.pid));
        var bps := delta as real / secs;
        if bps > maxBps {
          maxBps := bps;
          maxPid := cur.pid;
          best := i;
        }
        i := i + 1;
      }
    }

    /**
     * TryComputeEtwDiskTop: the same snapshot handling; the answer is the
     * first process of the highest disk rate, when its pid is positive.
     */
    method TryComputeEtwDiskTop(totals: seq<DiskTotals>, nowMs: int, nameOf: int -> Option<string>)
      returns (ok: bool, topProcessName: string)
      modifies this`etwDiskLastTotals, this`etwDiskLastSnapshot
      ensures totals == [] ==> etwDiskLastTotals == old(etwDiskLastTotals) && etwDiskLastSnapshot == old(etwDiskLastSnapshot)
      ensures totals != [] ==> etwDiskLastTotals == DiskTotalsMap(totals) && etwDiskLastSnapshot == Some(nowMs)
      ensures !ok ==> topProcessName == ""
      ensures totals == [] || NoInterval(old(etwDiskLastSnapshot), nowMs) ==> !ok
      ensures totals != [] && !NoInterval(old(etwDiskLastSnapshot), nowMs) ==>
        var secs := ElapsedSeconds(nowMs - old(etwDiskLastSnapshot).value);
        exists i :: FirstFastest(totals, old(etwDiskLastTotals), secs, i) &&
          (ok <==> totals[i].pid > 0) &&
          (ok ==> topProcessName == ExeName(nameOf(totals[i].pid), totals[i].pid))
    {
      topProcessName := "";
      if |totals| == 0 {
        return false, topProcessName;
      }
      if etwDiskLastSnapshot.None? || nowMs - etwDiskLastSnapshot.value <= 0 {
        etwDiskLastTotals := DiskTotalsMap(totals);
        etwDiskLastSnapshot := Some(nowMs);
        return false, topProcessName;
      }
      var secs := ElapsedSeconds(nowMs - etwDiskLastSnapshot.value);
      ghost var best;
      var maxPid;
      maxPid, best := FastestDiskProcess(totals, etwDiskLastTotals, secs);
      etwDiskLastTotals := DiskTotalsMap(totals);
      etwDiskLastSnapshot := Some(nowMs);
      if maxPid > 0 {
        topProcessName := ExeName(nameOf(maxPid), maxPid);
        return true, topProcessName;
      }
      return false, topProcessName;
    }

    /**
     * EnsureNetworkInterfaces: when no interfaces are known, take the
     * enumeration and record each one's counters as the baseline.
     */
    method EnsureNetworkInterfaces(nics: seq<NicId>, live: NicId -> NicLive, nowMs: int)
      requires Valid()
      modifies this`networkInterfaces, this`lastBytesSent, this`lastBytesReceived, this`lastNetworkSampleMs
      ensures Valid()
      ensures old(networkInterfaces) != [] ==>
        networkInterfaces == old(networkInterfaces) && lastBytesSent == old(lastBytesSent) &&
        lastBytesReceived == old(lastBytesReceived) && lastNetworkSampleMs == old(lastNetworkSampleMs)
      ensures old(networkInterfaces) == [] ==> networkInterfaces == nics && lastNetworkSampleMs == nowMs
      ensures old(networkInterfaces) == [] ==>
        forall id :: id in lastBytesSent ==> id in nics && lastBytesSent[id] == live(id).bytesSent
      ensures old(networkInterfaces) == [] ==>
        forall id :: id in lastBytesReceived ==> id in nics && lastBytesReceived[id] == live(id).bytesReceived
    {
      if |networkInterfaces| > 0 {
        return;
      }
      networkInterfaces := nics;
      lastBytesSent, lastBytesReceived := RecordCounters(nics, live);
      lastNetworkSampleMs := nowMs;
    }

    /**
     * The network sampler with the interface enumeration its fallback relies
     * on: EnsureNetworkInterfaces, then GetNetworkInfo.
     */
    method SampleNetwork(nics: seq<NicId>, etwTotals: seq<EtwTotals>, live: NicId -> NicLive, socketTop: seq<ProcessRate>,
                         nowMs: int)
      returns (report: NetworkReport)
      requires Valid()
      modifies this`networkInterfaces, this`etwLastTotals, this`etwLastSnapshot, this`lastBytesSent, this`lastBytesReceived,
        this`lastNetworkSampleMs, this`uploadHistory, this`downloadHistory
      ensures Valid()
      ensures networkInterfaces == if old(networkInterfaces) == [] then nics else old(networkInterfaces)
      ensures report.status != "" ==> (report.status == "Connected" <==> UpInterfaces(networkInterfaces, live) != [])
    {
      EnsureNetworkInterfaces(nics, live, nowMs);
      report := GetNetworkInfo(etwTotals, live, socketTop, nowMs);
    }

    /** The baseline loop: every enumerated interface's live counters, and nothing else. */
    static method RecordCounters(nics: seq<NicId>, live: NicId -> NicLive)
      returns (sent: map<NicId, int>, received: map<NicId, int>)
      ensures Recorded(nics, sent, received)
      ensures forall id :: id in sent ==> id in nics && sent[id] == live(id).bytesSent
      ensures forall id :: id in received ==> id in nics && received[id] == live(id).bytesReceived
    {
      sent := map[];
      received := map[];
      var i := 0;
      while i < |nics|
        invariant 0 <= i <= |nics|
        invariant forall k :: 0 <= k < i ==> nics[k] in sent && nics[k] in received
        invariant forall id :: id in sent ==> id in nics && sent[id] == live(id).bytesSent
        invariant forall id :: id in received ==> id in nics && received[id] == live(id).bytesReceived
      {
        var id := nics[i];
        var stats := live(id);
        sent := sent[id := stats.bytesSent];
        received := received[id := stats.bytesReceived];
        i := i + 1;
      }
    }

    /** The interface loop over the up interfaces, with the last-seen tables threaded through as values. */
    static method NicLoop(ids: seq<NicId>, live: NicId -> NicLive, lastSent: map<NicId, int>, lastReceived: map<NicId, int>)
      returns (p: NicPass)
      ensures p == NicPassOver(UpInterfaces(ids, live), live, NicPass(0, 0, lastSent, lastReceived, false))
    {
      var up := UpInterfaces(ids, live);
      var start := NicPass(0, 0, lastSent, lastReceived, false);
      p := start;
      var i := 0;
      while i < |up|
        invariant 0 <= i <= |up|
        invariant !p.threw
        invariant NicPassOver(up[i..], live, p) == NicPassOver(up, live, start)
      {
        var id := up[i];
        assert up[i..][0] == id && up[i..][1..] == up[i + 1..];
        if id !in p.lastSent || id !in p.lastReceived {
          p := p.(threw := true);
          return;
        }
        var stats := live(id);
        p := NicPass(p.sent + (stats.bytesSent - p.lastSent[id]), p.received + (stats.bytesReceived - p.lastReceived[id]),
                     p.lastSent[id := stats.bytesSent], p.lastReceived[id := stats.bytesReceived], false);
        i := i + 1;
      }
      assert up[i..] == [];
    }

    /**
     * GetNetworkInfo: the per-process byte tables when they give rates,
     * otherwise the interface counters; either way a sample joins the
     * 30-entry histories.
     */
    method GetNetworkInfo(etwTotals: seq<EtwTotals>, live: NicId -> NicLive, socketTop: seq<ProcessRate>, nowMs: int)
      returns (report: NetworkReport)
      requires Valid()
      modifies this`etwLastTotals, this`etwLastSnapshot, this`lastBytesSent, this`lastBytesReceived,
        this`lastNetworkSampleMs, this`uploadHistory, this`downloadHistory
      ensures Valid()
      ensures etwTotals != [] ==> TraceBaseline(etwTotals, nowMs)
      ensures etwTotals == [] ==> unchanged(this`etwLastTotals, this`etwLastSnapshot)
      ensures report.fromTrace <==> etwTotals != [] && !NoInterval(old(etwLastSnapshot), nowMs)
      ensures report.fromTrace ==>
        TraceStep(networkInterfaces, live, TopOr(TraceTop(etwTotals, old(etwLastTotals), old(etwLastSnapshot).value, nowMs, 3), socketTop),
                  old(InterfaceState()), InterfaceState(), report)
      ensures report.fromTrace ==>
        TraceRates(etwTotals, old(etwLastTotals), old(etwLastSnapshot), nowMs, 3, true,
                   TraceTop(etwTotals, old(etwLastTotals), old(etwLastSnapshot).value, nowMs, 3), report.uploadMbps, report.downloadMbps)
      ensures !report.fromTrace ==>
        InterfaceStep(networkInterfaces, live, socketTop, old(InterfaceState()), nowMs, InterfaceState(), report)
    {
      var ok, top, up, down := TryComputeEtwRates(3, etwTotals, nowMs);
      report := RecordNetworkSample(ok, TopOr(top, socketTop), up, down, live, socketTop, nowMs);
    }

    /** The rest of GetNetworkInfo: the trace's sample when it gave rates, otherwise the interface fallback. */
    method RecordNetworkSample(fromTrace: bool, top: seq<ProcessRate>, uploadMbps: real, downloadMbps: real,
                               live: NicId -> NicLive, socketTop: seq<ProcessRate>, nowMs: int)
      returns (report: NetworkReport)
      requires Valid()
      modifies this`lastBytesSent, this`lastBytesReceived, this`lastNetworkSampleMs, this`uploadHistory, this`downloadHistory
      ensures Valid()
      ensures report.fromTrace == fromTrace
      ensures fromTrace ==>
        && report.uploadMbps == uploadMbps && report.downloadMbps == downloadMbps
        && TraceStep(networkInterfaces, live, top, old(InterfaceState()), InterfaceState(), report)
      ensures !fromTrace ==>
        InterfaceStep(networkInterfaces, live, socketTop, old(InterfaceState()), nowMs, InterfaceState(), report)
    {
      if fromTrace {
        report := PushTraceSample(top, uploadMbps, downloadMbps, live);
      } else {
        report := SampleInterfaces(live, socketTop, nowMs);
      }
    }

    /** The trace branch of GetNetworkInfo: the interval's rates join the histories. */
    method PushTraceSample(top: seq<ProcessRate>, uploadMbps: real, downloadMbps: real, live: NicId -> NicLive)
      returns (report: NetworkReport)
      requires Valid()
      modifies this`uploadHistory, this`downloadHistory
      ensures Valid()
      ensures TraceStep(networkInterfaces, live, top, old(InterfaceState()), InterfaceState(), report)
      ensures report.uploadMbps == uploadMbps && report.downloadMbps == downloadMbps
    {
      uploadHistory := PushNetworkSample(uploadHistory, uploadMbps);
      downloadHistory := PushNetworkSample(downloadHistory, downloadMbps);
      var status := LinkStatus(UpInterfaces(networkInterfaces, live));
      report := NetworkReport(uploadMbps, downloadMbps, uploadHistory, downloadHistory, top, status, true);
    }

    /** The per-process table just taken is the baseline of the next interval. */
    ghost predicate TraceBaseline(totals: seq<EtwTotals>, nowMs: int)
      reads this`etwLastTotals, this`etwLastSnapshot
    {
      etwLastTotals == TotalsMap(totals) && etwLastSnapshot == Some(nowMs)
    }

    /** The fallback's part of the service state. */
    function InterfaceState(): NicState
      reads this`lastBytesSent, this`lastBytesReceived, this`lastNetworkSampleMs, this`uploadHistory, this`downloadHistory
    {
      NicState(lastBytesSent, lastBytesReceived, lastNetworkSampleMs, uploadHistory, downloadHistory)
    }

    /** The interface fallback of GetNetworkInfo, applied to the service's own state. */
    method SampleInterfaces(live: NicId -> NicLive, socketTop: seq<ProcessRate>, nowMs: int) returns (report: NetworkReport)
      requires Valid()
      modifies this`lastBytesSent, this`lastBytesReceived, this`lastNetworkSampleMs, this`uploadHistory, this`downloadHistory
      ensures Valid()
      ensures InterfaceStep(networkInterfaces, live, socketTop, old(InterfaceState()), nowMs, InterfaceState(), report)
    {
      var next;
      next, report := SampleInterfacesOn(networkInterfaces, live, socketTop, InterfaceState(), nowMs);
      InterfaceStepValid(networkInterfaces, live, socketTop, InterfaceState(), nowMs, next, report);
      lastBytesSent := next.lastSent;
      lastBytesReceived := next.lastReceived;
      lastNetworkSampleMs := next.sampleMs;
      uploadHistory := next.uploadHistory;
      downloadHistory := next.downloadHistory;
      assert InterfaceState() == next;
    }

    /** The fallback on explicit state: the skip below 100 ms, or one pass of the interface loop. */
    static method SampleInterfacesOn(ids: seq<NicId>, live: NicId -> NicLive, socketTop: seq<ProcessRate>, s: NicState, nowMs: int)
      returns (next: NicState, report: NetworkReport)
      ensures InterfaceStep(ids, live, socketTop, s, nowMs, next, report)
    {
      if nowMs - s.sampleMs < MinNetworkIntervalMs {
        next := s.(sampleMs := nowMs);
        return next, NetworkReport(0.0, 0.0, s.uploadHistory, s.downloadHistory, [], "", false);
      }
      var secs := (nowMs - s.sampleMs) as real / 1000.0;
      var p := NicLoop(ids, live, s.lastSent, s.lastReceived);
      var upMbps := NicMbps(p.sent, secs);
      var downMbps := NicMbps(p.received, secs);
      next := NicState(p.lastSent, p.lastReceived, nowMs,
                       PushNetworkSample(s.uploadHistory, upMbps), PushNetworkSample(s.downloadHistory, downMbps));
      var status := LinkStatus(UpInterfaces(ids, live));
      report := NetworkReport(upMbps, downMbps, next.uploadHistory, next.downloadHistory, socketTop, status, false);
    }
  }
}
