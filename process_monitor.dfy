/**
 * The process-table sampler (Services/ProcessMonitorService.cs). Each sample
 * turns a snapshot of the running processes into rows with a CPU share from
 * the growth of each process's processor time, a memory figure chosen by the
 * MemoryMetric setting, the parent process id, and a GPU share summed over the
 * GPU-engine performance counters of the process. Three caches throttle the
 * expensive reads: GPU readings are reused for 1 s, the counter set is rebuilt
 * every 3 s, and the parent-process map is re-queried every 5 s.
 *
 * The operating-system reads are inputs: the process snapshots, the batch
 * memory readings, the parent-process query, the counter instance names, which
 * counters can be created, and what each counter reads. Times are integer
 * milliseconds counted from DateTime.MinValue, so a cache that was never
 * filled carries time 0.
 */
module ProcessMonitor {
  import opened Wrappers
  import opened Text
  import opened Numerics
  import opened Collections
  import Settings

  /** One process from Process.GetProcesses. */
  datatype ProcessSnapshot = ProcessSnapshot(
    id: int,
    processName: string,
    /** TotalProcessorTime in milliseconds; None when reading it throws, and the process is skipped. */
    totalProcessorMs: Option<real>,
    /** WorkingSet64; None when reading it throws. */
    workingSet64: Option<int>)

  /** The share of one GPU adapter in a process's GPU use. */
  datatype AdapterShare = AdapterShare(adapter: string, percent: real)

  /** ProcessInfo, one row of the sample. */
  datatype ProcessInfo = ProcessInfo(
    processId: int,
    name: string,
    cpuPercent: real,
    memoryBytes: int,
    gpuPercent: real,
    parentId: int,
    gpuByAdapterPercent: seq<AdapterShare>)

  /** The inputs one sample reads besides the processor times it remembers. */
  datatype Readings = Readings(
    elapsedMs: int,
    processorCount: int,
    metric: Settings.MemoryMetric,
    workingSetByPid: map<int, int>,
    privateByPid: map<int, int>,
    parentMap: map<int, int>)
  {
    predicate Valid() { elapsedMs > 0 && processorCount > 0 }
  }

  /** The time since the previous sample; a clock that did not advance counts as one millisecond. */
  function EffectiveElapsed(elapsedMs: int): (e: int)
    ensures e > 0
    ensures elapsedMs > 0 ==> e == elapsedMs
    ensures elapsedMs <= 0 ==> e == 1
  {
    if elapsedMs <= 0 then 1 else elapsedMs
  }

  /**
   * The CPU share of a process: its processor time over the interval as a
   * percentage of the time all processors had, never negative.
   */
  function CpuPercent(deltaMs: real, elapsedMs: int, processorCount: int): (cpu: real)
    requires elapsedMs > 0 && processorCount > 0
    ensures cpu >= 0.0
    ensures deltaMs <= 0.0 ==> cpu == 0.0
    ensures deltaMs >= 0.0 ==> cpu * (elapsedMs * processorCount) as real == 100.0 * deltaMs
  {
    var capacity := elapsedMs as real * processorCount as real;
    var share := deltaMs / capacity * 100.0;
    assert deltaMs >= 0.0 ==> share * capacity == 100.0 * deltaMs;
    if share < 0.0 then 0.0 else share
  }

  /** A process that used no more processor time than the interval offered shows at most 100 %. */
  lemma CpuPercentAtMostFull(deltaMs: real, elapsedMs: int, processorCount: int)
    requires elapsedMs > 0 && processorCount > 0
    requires deltaMs <= (elapsedMs * processorCount) as real
    ensures CpuPercent(deltaMs, elapsedMs, processorCount) <= 100.0
  {
    var capacity := (elapsedMs * processorCount) as real;
    var cpu := CpuPercent(deltaMs, elapsedMs, processorCount);
    if deltaMs >= 0.0 {
      assert cpu * capacity == 100.0 * deltaMs;
      assert 100.0 * deltaMs <= 100.0 * capacity;
      if cpu > 100.0 {
        assert cpu * capacity > 100.0 * capacity;
      }
    }
  }

  /**
   * The memory figure of a row. Working set: the batch reading, else the
   * process's own WorkingSet64, else 0. Private working set: the batch
   * reading, else 0.
   */
  function MemoryBytes(metric: Settings.MemoryMetric, id: int, workingSetByPid: map<int, int>,
                       privateByPid: map<int, int>, workingSet64: Option<int>): (bytes: int)
    ensures metric == Settings.WorkingSet && id in workingSetByPid ==> bytes == workingSetByPid[id]
    ensures metric == Settings.WorkingSet && id !in workingSetByPid ==> bytes == workingSet64.GetOr(0)
    ensures metric != Settings.WorkingSet && id in privateByPid ==> bytes == privateByPid[id]
    ensures metric != Settings.WorkingSet && id !in privateByPid ==> bytes == 0
  {
    var workingSet := if id in workingSetByPid then workingSetByPid[id] else workingSet64.GetOr(0);
    var privateBytes := if id in privateByPid then privateByPid[id] else 0;
    if metric == Settings.WorkingSet then workingSet else privateBytes
  }

  /** The parent process id, 0 when the process is missing from the parent map. */
  function ParentOf(parentMap: map<int, int>, id: int): (parent: int)
    ensures id in parentMap ==> parent == parentMap[id]
    ensures id !in parentMap ==> parent == 0
  {
    if id in parentMap then parentMap[id] else 0
  }

  /**
   * The row of a process whose processor time could be read. A process not
   * seen before counts its whole processor time as already accounted for, so
   * its share is 0; the GPU fields are filled in later.
   */
  function Row(p: ProcessSnapshot, last: map<int, real>, r: Readings): (info: ProcessInfo)
    requires p.totalProcessorMs.Some? && r.Valid()
    ensures info.processId == p.id && info.name == p.processName
    ensures p.id !in last ==> info.cpuPercent == 0.0
    ensures p.id in last ==> info.cpuPercent == CpuPercent(p.totalProcessorMs.value - last[p.id], r.elapsedMs, r.processorCount)
    ensures info.memoryBytes == MemoryBytes(r.metric, p.id, r.workingSetByPid, r.privateByPid, p.workingSet64)
    ensures info.parentId == ParentOf(r.parentMap, p.id)
    ensures info.gpuPercent == 0.0 && info.gpuByAdapterPercent == []
  {
    var total := p.totalProcessorMs.value;
    var previous := if p.id in last then last[p.id] else total;
    ProcessInfo(p.id, p.processName, CpuPercent(total - previous, r.elapsedMs, r.processorCount),
      MemoryBytes(r.metric, p.id, r.workingSetByPid, r.privateByPid, p.workingSet64),
      0.0, ParentOf(r.parentMap, p.id), [])
  }

  /** The processor times remembered after reading the snapshots in order. */
  function TimesAfter(ps: seq<ProcessSnapshot>, last: map<int, real>): (m: map<int, real>)
    decreases |ps|
  {
    if ps == [] then last
    else
      var m := TimesAfter(ps[..|ps| - 1], last);
      var p := ps[|ps| - 1];
      if p.totalProcessorMs.Some? then m[p.id := p.totalProcessorMs.value] else m
  }

  /** The rows of the snapshots in order, each measured against the times remembered before it. */
  function Rows(ps: seq<ProcessSnapshot>, last: map<int, real>, r: Readings): (rows: seq<ProcessInfo>)
    requires r.Valid()
    decreases |ps|
  {
    if ps == [] then []
    else
      var init := ps[..|ps| - 1];
      var p := ps[|ps| - 1];
      Rows(init, last, r) + (if p.totalProcessorMs.Some? then [Row(p, TimesAfter(init, last), r)] else [])
  }

  /**
   * After a sample the service remembers the processor time of every process
   * it read, the latest reading winning, and keeps what it knew of the others.
   */
  lemma {:induction false} TimesAfterRemembers(ps: seq<ProcessSnapshot>, last: map<int, real>)
    ensures var m := TimesAfter(ps, last);
      && (forall id :: id in m <==> id in last || exists k :: 0 <= k < |ps| && ps[k].id == id && ps[k].totalProcessorMs.Some?)
      && (forall id :: id in m && (forall k :: 0 <= k < |ps| && ps[k].id == id ==> ps[k].totalProcessorMs.None?) ==> m[id] == last[id])
    decreases |ps|
  {
    if ps != [] {
      var init := ps[..|ps| - 1];
      TimesAfterRemembers(init, last);
      forall k | 0 <= k < |init| ensures init[k] == ps[k] { }
      var m := TimesAfter(ps, last);
      forall id | id in m ensures id in last || exists k :: 0 <= k < |ps| && ps[k].id == id && ps[k].totalProcessorMs.Some? {
        if id !in last && id != ps[|ps| - 1].id {
          var k :| 0 <= k < |init| && init[k].id == id && init[k].totalProcessorMs.Some?;
          assert ps[k] == init[k];
        }
      }
    }
  }

  /**
   * Every readable process gives exactly one row, in snapshot order, with a
   * share that is never negative; the others give none.
   */
  lemma {:induction false} RowsFacts(ps: seq<ProcessSnapshot>, last: map<int, real>, r: Readings)
    requires r.Valid()
    ensures var rows := Rows(ps, last, r);
      && |rows| == |Filter(ps, (p: ProcessSnapshot) => p.totalProcessorMs.Some?)|
      && (forall k :: 0 <= k < |rows| ==> rows[k].processId == Filter(ps, (p: ProcessSnapshot) => p.totalProcessorMs.Some?)[k].id)
      && (forall k :: 0 <= k < |rows| ==> rows[k].cpuPercent >= 0.0 && rows[k].gpuPercent == 0.0)
    decreases |ps|
  {
    if ps != [] {
      var init := ps[..|ps| - 1];
      RowsFacts(init, last, r);
      FilterSnoc(init, ps[|ps| - 1], (p: ProcessSnapshot) => p.totalProcessorMs.Some?);
      assert init + [ps[|ps| - 1]] == ps;
    }
  }

  lemma {:induction false} FilterSnoc<T>(s: seq<T>, x: T, p: T -> bool)
    ensures Filter(s + [x], p) == Filter(s, p) + (if p(x) then [x] else [])
    decreases |s|
  {
    if s != [] {
      assert (s + [x])[1..] == s[1..] + [x];
      FilterSnoc(s[1..], x, p);
    }
  }

  /** Names that are not empty and lack the ".exe" suffix in any case get it appended. */
  function NormalizeExe(name: string): (r: string)
    ensures name == [] ==> r == []
    ensures name != [] ==> EndsWithIgnoreCase(r, ".exe")
    ensures EndsWithIgnoreCase(name, ".exe") || name == [] ==> r == name
    ensures !EndsWithIgnoreCase(name, ".exe") && name != [] ==> r == name + ".exe"
  {
    if name != [] && !EndsWithIgnoreCase(name, ".exe") then
      ToUpperAppend(name, ".exe");
      var r := name + ".exe";
      assert ToUpper(r)[|r| - 4..] == ToUpper(".exe");
      r
    else name
  }

  /** Normalising twice is normalising once. */
  lemma NormalizeExeIdempotent(name: string)
    ensures NormalizeExe(NormalizeExe(name)) == NormalizeExe(name)
  {
  }

  const TopCount: nat := 200

  /** OrderByDescending(CpuPercent).Take(200). */
  function TopByCpu(rows: seq<ProcessInfo>): (top: seq<ProcessInfo>)
  {
    var sorted := SortDescending(rows, (i: ProcessInfo) => i.cpuPercent);
    if |sorted| <= TopCount then sorted else sorted[..TopCount]
  }

  /**
   * The sample keeps the 200 busiest rows, busiest first: at most 200 rows,
   * every one of them an input row, in descending CPU order, and no row left
   * out is busier than a row kept.
   */
  lemma TopByCpuFacts(rows: seq<ProcessInfo>)
    ensures var top := TopByCpu(rows);
      && |top| == (if |rows| <= TopCount then |rows| else TopCount)
      && multiset(top) <= multiset(rows)
      && (|rows| <= TopCount ==> multiset(top) == multiset(rows))
      && (forall i, j :: 0 <= i < j < |top| ==> top[i].cpuPercent >= top[j].cpuPercent)
      && (forall x, y :: x in multiset(rows) - multiset(top) && y in top ==> x.cpuPercent <= y.cpuPercent)
  {
    TopByCpuKept(rows);
    TopByCpuBusiest(rows);
  }

  /** The cut keeps a prefix of the descending sort: at most 200 rows, all input rows, in order. */
  lemma TopByCpuKept(rows: seq<ProcessInfo>)
    ensures var top := TopByCpu(rows);
      && |top| == (if |rows| <= TopCount then |rows| else TopCount)
      && multiset(top) <= multiset(rows)
      && (|rows| <= TopCount ==> multiset(top) == multiset(rows))
      && (forall i, j :: 0 <= i < j < |top| ==> top[i].cpuPercent >= top[j].cpuPercent)
  {
    var sorted := SortDescending(rows, (i: ProcessInfo) => i.cpuPercent);
    var top := TopByCpu(rows);
    if |sorted| > TopCount {
      assert sorted == top + sorted[TopCount..];
      assert multiset(sorted) == multiset(top) + multiset(sorted[TopCount..]);
    }
  }

  /** No row the cut leaves out is busier than a row it keeps. */
  lemma TopByCpuBusiest(rows: seq<ProcessInfo>)
    ensures var top := TopByCpu(rows);
      forall x, y :: x in multiset(rows) - multiset(top) && y in top ==> x.cpuPercent <= y.cpuPercent
  {
    var sorted := SortDescending(rows, (i: ProcessInfo) => i.cpuPercent);
    var top := TopByCpu(rows);
    if |sorted| > TopCount {
      var rest := sorted[TopCount..];
      assert sorted == top + rest;
      assert multiset(sorted) == multiset(top) + multiset(rest);
      forall x, y | x in multiset(rows) - multiset(top) && y in top ensures x.cpuPercent <= y.cpuPercent {
        assert x in multiset(rest);
        var i :| 0 <= i < |rest| && rest[i] == x;
        var j :| 0 <= j < |top| && top[j] == y;
        assert sorted[TopCount + i] == x && sorted[j] == y;
      }
    }
  }

  /** A '_'-separated part that names the process id, "pid" in any case. */
  predicate IsPidTag(part: string) {
    ToUpper(part) == "PID"
  }

  /** The name contains "pid_" in any case. */
  predicate HasPidMarker(instance: string) {
    Contains(ToUpper(instance), "PID_")
  }

  /** The part after the first "pid" part names the process. */
  ghost predicate PidPartAt(parts: seq<string>, i: nat) {
    && i + 1 < |parts|
    && IsPidTag(parts[i])
    && forall k :: 0 <= k < i ==> !IsPidTag(parts[k])
  }

  /**
   * The process id of a GPU-engine instance name such as
   * "pid_1234_luid_0x0_0x0_eng_0_engtype_3D": the name must contain "pid_"
   * in any case, and the part after the first "pid" part must parse as an
   * integer; otherwise it is 0.
   */
  function InstancePid(instance: string): (pid: int)
  {
    if !HasPidMarker(instance) then 0 else PidOfParts(Split(instance, '_'))
  }

  /** The number after the first "pid" part that is not the last part, else 0. */
  function PidOfParts(parts: seq<string>): int
    requires |parts| >= 1
  {
    match FirstWhere(parts[..|parts| - 1], IsPidTag)
    case None => 0
    case Some(i) => ParseInt(parts[i + 1]).GetOr(0)
  }

  /** A non-zero id read from the parts is the number after the first "pid" part. */
  lemma PidOfPartsNamesProcess(parts: seq<string>)
    requires |parts| >= 1
    ensures PidOfParts(parts) != 0 ==> exists i :: PidPartAt(parts, i) && ParseInt(parts[i + 1]) == Some(PidOfParts(parts))
  {
    var heads := parts[..|parts| - 1];
    var first := FirstWhere(heads, IsPidTag);
    if first.Some? {
      var i := first.value;
      assert PidPartAt(parts, i) by {
        FirstWhereIsFirst(heads, IsPidTag);
        assert forall k :: 0 <= k <= i ==> heads[k] == parts[k];
      }
      assert PidOfParts(parts) == ParseInt(parts[i + 1]).GetOr(0);
    }
  }

  /** A non-zero id comes from a name with "pid_" and is the number after its first "pid" part. */
  lemma InstancePidNamesProcess(instance: string)
    ensures InstancePid(instance) != 0 ==> HasPidMarker(instance)
    ensures InstancePid(instance) != 0 ==>
      exists i :: PidPartAt(Split(instance, '_'), i) && ParseInt(Split(instance, '_')[i + 1]) == Some(InstancePid(instance))
  {
    if HasPidMarker(instance) {
      PidOfPartsNamesProcess(Split(instance, '_'));
    }
  }

  /** The first "pid" part before the last part decides the id. */
  lemma PidOfPartsAt(parts: seq<string>, i: nat)
    requires i + 1 < |parts| && IsPidTag(parts[i])
    requires forall k :: 0 <= k < i ==> !IsPidTag(parts[k])
    ensures PidOfParts(parts) == ParseInt(parts[i + 1]).GetOr(0)
  {
    var heads := parts[..|parts| - 1];
    assert forall k :: 0 <= k <= i ==> heads[k] == parts[k];
    FirstWhereAt(heads, IsPidTag, i);
  }

  /** Without a "pid" part before the last part the id is 0. */
  lemma PidOfPartsNone(parts: seq<string>)
    requires |parts| >= 1
    requires forall k :: 0 <= k < |parts| - 1 ==> !IsPidTag(parts[k])
    ensures PidOfParts(parts) == 0
  {
    var heads := parts[..|parts| - 1];
    FirstWhereIsFirst(heads, IsPidTag);
  }

  /** A name with "pid_" whose first "pid" part is followed by a number names that process. */
  lemma InstancePidOfTag(instance: string, i: nat, n: int)
    requires HasPidMarker(instance)
    requires PidPartAt(Split(instance, '_'), i) && ParseInt(Split(instance, '_')[i + 1]) == Some(n)
    ensures InstancePid(instance) == n
  {
    PidOfPartsAt(Split(instance, '_'), i);
  }

  /** The loop of EnsureGpuCounters that reads the process id out of an instance name. */
  method ParsePid(instance: string) returns (pid: int)
    ensures pid == InstancePid(instance)
  {
    if !HasPidMarker(instance) {
      return 0;
    }
    pid := ParsePidParts(Split(instance, '_'));
  }

  /** The loop over the '_'-separated parts: the number after the first "pid" part. */
  method ParsePidParts(parts: seq<string>) returns (pid: int)
    requires |parts| >= 1
    ensures pid == PidOfParts(parts)
  {
    pid := 0;
    var i := 0;
    while i < |parts| - 1
      invariant 0 <= i <= |parts| - 1
      invariant forall k :: 0 <= k < i ==> !IsPidTag(parts[k])
    {
      if IsPidTag(parts[i]) {
        var parsed := ParseInt(parts[i + 1]);
        if parsed.Some? {
          pid := parsed.value;
        }
        PidOfPartsAt(parts, i);
        return;
      }
      i := i + 1;
    }
    PidOfPartsNone(parts);
  }

  /**
   * The adapter of a GPU-engine instance: the part of the name from "luid_"
   * up to the next "_eng" or the end, both found ignoring case, else "unknown".
   */
  function AdapterKey(instance: string): (key: string)
  {
    var upper := ToUpper(instance);
    var luid := Text.IndexOf(upper, "LUID_");
    if luid < 0 then "unknown"
    else
      var found := IndexOfFrom(upper, "_ENG", luid);
      var end := if found < 0 then |instance| else found;
      if end < luid then "unknown" else instance[luid..end]
  }

  /**
   * Without "luid_" the key is "unknown"; otherwise it is the slice of the
   * name that starts at the first "luid_" and runs to the first "_eng" after
   * it, or to the end when there is none.
   */
  lemma AdapterKeyFacts(instance: string)
    ensures Text.IndexOf(ToUpper(instance), "LUID_") < 0 ==> AdapterKey(instance) == "unknown"
    ensures var i := Text.IndexOf(ToUpper(instance), "LUID_"); var key := AdapterKey(instance);
      i >= 0 ==>
        && 4 <= |key| && i + |key| <= |instance| && key == instance[i..i + |key|]
        && Upper(key[0]) == 'L'
  {
    var upper := ToUpper(instance);
    var luid := Text.IndexOf(upper, "LUID_");
    if luid >= 0 {
      OccursAtChar(upper, "LUID_", luid, 0);
      LuidIsNotEng(upper, luid);
    }
  }

  /** A character of an occurrence is the substring's character. */
  lemma OccursAtChar(s: string, sub: string, i: nat, k: nat)
    requires OccursAt(s, sub, i) && k < |sub|
    ensures s[i + k] == sub[k]
  {
    assert s[i..i + |sub|][k] == s[i + k];
  }

  /** The key stops at the first "_eng" after "luid_", or at the end of the name when there is none. */
  lemma AdapterKeyStopsAtEng(instance: string)
    requires Text.IndexOf(ToUpper(instance), "LUID_") >= 0
    ensures var i := Text.IndexOf(ToUpper(instance), "LUID_");
      i + |AdapterKey(instance)| == |instance| || OccursAt(ToUpper(instance), "_ENG", i + |AdapterKey(instance)|)
    ensures var i := Text.IndexOf(ToUpper(instance), "LUID_");
      forall j :: i <= j < i + |AdapterKey(instance)| ==> !OccursAt(ToUpper(instance), "_ENG", j)
  {
    var upper := ToUpper(instance);
    var luid := Text.IndexOf(upper, "LUID_");
    var found := IndexOfFrom(upper, "_ENG", luid);
    AdapterKeySpan(instance);
    assert luid + |AdapterKey(instance)| == (if found < 0 then |instance| else found);
  }

  /** The key runs from "luid_" to the first "_eng" after it, or to the end. */
  lemma AdapterKeySpan(instance: string)
    requires Text.IndexOf(ToUpper(instance), "LUID_") >= 0
    ensures var luid := Text.IndexOf(ToUpper(instance), "LUID_");
      var found := IndexOfFrom(ToUpper(instance), "_ENG", luid);
      |AdapterKey(instance)| == (if found < 0 then |instance| else found) - luid
  {
  }

  /** "_eng" cannot start inside the "luid" of "luid_". */
  lemma LuidIsNotEng(upper: string, luid: nat)
    requires OccursAt(upper, "LUID_", luid)
    ensures forall j :: luid <= j < luid + 4 ==> !OccursAt(upper, "_ENG", j)
  {
    forall j | luid <= j < luid + 4 ensures !OccursAt(upper, "_ENG", j) {
      OccursAtChar(upper, "LUID_", luid, j - luid);
    }
  }

  /** A key read from a "luid_" name is never the fallback "unknown". */
  lemma AdapterKeyFound(instance: string)
    requires Text.IndexOf(ToUpper(instance), "LUID_") >= 0
    ensures AdapterKey(instance) != "unknown"
  {
    AdapterKeyFacts(instance);
    var key := AdapterKey(instance);
    assert Upper(key[0]) == 'L';
    assert "unknown"[0] == 'u';
  }

  /** The sum of a process's adapter shares. */
  function SumShares(s: seq<AdapterShare>): (total: real)
    decreases |s|
  {
    if s == [] then 0.0 else SumShares(s[..|s| - 1]) + s[|s| - 1].percent
  }

  lemma {:induction false} SumSharesCons(x: AdapterShare, s: seq<AdapterShare>)
    ensures SumShares([x] + s) == x.percent + SumShares(s)
    decreases |s|
  {
    if s != [] {
      var init := s[..|s| - 1];
      assert ([x] + s)[..|s|] == [x] + init;
      SumSharesCons(x, init);
    }
  }

  /**
   * Adds a reading to the share of its adapter: the first share whose adapter
   * matches ignoring case grows, else a new share goes last. The shares grow
   * in total by exactly the reading.
   */
  function AddShare(s: seq<AdapterShare>, adapter: string, v: real): (r: seq<AdapterShare>)
    ensures SumShares(r) == SumShares(s) + v
    ensures (forall k :: 0 <= k < |s| ==> !EqualsIgnoreCase(s[k].adapter, adapter)) ==> r == s + [AdapterShare(adapter, v)]
    decreases |s|
  {
    var x := if s == [] then AdapterShare(adapter, v) else s[0];
    if s == [] then
      assert [x] == [] + [x];
      [x]
    else if EqualsIgnoreCase(x.adapter, adapter) then
      var grown := x.(percent := x.percent + v);
      SumSharesCons(grown, s[1..]);
      SumSharesCons(x, s[1..]);
      assert s == [x] + s[1..];
      [grown] + s[1..]
    else
      var rest := AddShare(s[1..], adapter, v);
      SumSharesCons(x, rest);
      SumSharesCons(x, s[1..]);
      assert s == [x] + s[1..];
      assert (forall k :: 0 <= k < |s| ==> !EqualsIgnoreCase(s[k].adapter, adapter)) ==> [x] + rest == s + [AdapterShare(adapter, v)] by {
        if forall k :: 0 <= k < |s| ==> !EqualsIgnoreCase(s[k].adapter, adapter) {
          assert forall k :: 0 <= k < |s[1..]| ==> s[1..][k] == s[k + 1];
          assert rest == s[1..] + [AdapterShare(adapter, v)];
        }
      }
      [x] + rest
  }

  /** Every share multiplied by `factor`. */
  function Scale(s: seq<AdapterShare>, factor: real): (r: seq<AdapterShare>)
    ensures |r| == |s|
    ensures forall k :: 0 <= k < |s| ==> r[k] == s[k].(percent := s[k].percent * factor)
  {
    seq(|s|, k requires 0 <= k < |s| => s[k].(percent := s[k].percent * factor))
  }

  lemma {:induction false} SumScale(s: seq<AdapterShare>, factor: real)
    ensures SumShares(Scale(s, factor)) == factor * SumShares(s)
    decreases |s|
  {
    if s != [] {
      var init := s[..|s| - 1];
      SumScale(init, factor);
      ScaleInit(s, factor);
      Distribute(factor, SumShares(init), s[|s| - 1].percent);
    }
  }

  /** Scaling commutes with dropping the last share. */
  lemma ScaleInit(s: seq<AdapterShare>, factor: real)
    requires s != []
    ensures Scale(s, factor)[..|s| - 1] == Scale(s[..|s| - 1], factor)
    ensures Scale(s, factor)[|s| - 1].percent == s[|s| - 1].percent * factor
  {
    var init := s[..|s| - 1];
    forall k | 0 <= k < |init| ensures Scale(s, factor)[k] == Scale(init, factor)[k] {
      assert init[k] == s[k];
    }
  }

  lemma Distribute(f: real, a: real, b: real)
    ensures f * (a + b) == f * a + b * f
  {
  }

  /**
   * The adapter shares of a process after its total is clamped: when they sum
   * to something positive they are rescaled to sum to the clamped total,
   * otherwise they stay as read.
   */
  function Rescaled(s: seq<AdapterShare>, total: real): (r: seq<AdapterShare>)
    ensures SumShares(s) > 0.0 ==> SumShares(r) == total
    ensures SumShares(s) <= 0.0 ==> r == s
    ensures |r| == |s| && forall k :: 0 <= k < |s| ==> r[k].adapter == s[k].adapter
  {
    var sum := SumShares(s);
    if sum > 0.0 then
      SumScale(s, total / sum);
      Scale(s, total / sum)
    else s
  }

  /**
   * A GPU-engine performance counter the service holds: its instance name,
   * the process id parsed from it, and the time it was created, which tells
   * a reused counter from a new one.
   */
  datatype EngineCounter = EngineCounter(instance: string, pid: int, created: nat)

  /** The per-process GPU totals, their adapter shares, and the order processes were first seen. */
  datatype Tally = Tally(totals: map<int, real>, shares: map<int, seq<AdapterShare>>, order: seq<int>)

  /**
   * A counter takes part in a sample when it has a name, its process is one
   * of the target processes (all processes when there are none), and it
   * reads a finite value. A read that throws is modelled as NaN, which is
   * skipped the same way.
   */
  predicate Counted(c: EngineCounter, targetPids: set<int>, value: string -> Double) {
    && c.instance != []
    && (|targetPids| == 0 || c.pid in targetPids)
    && value(c.instance).Finite?
  }

  function AddReading(t: Tally, c: EngineCounter, v: real): (r: Tally)
  {
    var total := if c.pid in t.totals then t.totals[c.pid] else 0.0;
    var shares := if c.pid in t.shares then t.shares[c.pid] else [];
    Tally(t.totals[c.pid := total + v],
          t.shares[c.pid := AddShare(shares, AdapterKey(c.instance), v)],
          if c.pid in t.totals then t.order else t.order + [c.pid])
  }

  /** The totals and shares the counters give when read in order. */
  function TallyOf(cs: seq<EngineCounter>, targetPids: set<int>, value: string -> Double): (t: Tally)
    decreases |cs|
  {
    if cs == [] then Tally(map[], map[], [])
    else
      var t := TallyOf(cs[..|cs| - 1], targetPids, value);
      var c := cs[|cs| - 1];
      if Counted(c, targetPids, value) then AddReading(t, c, value(c.instance).value) else t
  }

  /** The readings of one process's counted counters, in order. */
  function PidReadings(cs: seq<EngineCounter>, targetPids: set<int>, value: string -> Double, pid: int): (vs: seq<real>)
    decreases |cs|
  {
    if cs == [] then []
    else
      var c := cs[|cs| - 1];
      PidReadings(cs[..|cs| - 1], targetPids, value, pid)
        + (if Counted(c, targetPids, value) && c.pid == pid then [value(c.instance).value] else [])
  }

  /**
   * A tally whose adapter shares add up to each process's total, with every
   * process once in the order.
   */
  ghost predicate Consistent(t: Tally) {
    && t.shares.Keys == t.totals.Keys
    && (forall pid :: pid in t.totals ==> SumShares(t.shares[pid]) == t.totals[pid])
    && (forall pid :: pid in t.totals <==> pid in t.order)
    && (forall i, j :: 0 <= i < j < |t.order| ==> t.order[i] != t.order[j])
  }

  lemma AddReadingConsistent(t: Tally, c: EngineCounter, v: real)
    requires Consistent(t)
    ensures Consistent(AddReading(t, c, v))
  {
  }

  lemma {:induction false} TallyOfConsistent(cs: seq<EngineCounter>, targetPids: set<int>, value: string -> Double)
    ensures Consistent(TallyOf(cs, targetPids, value))
    decreases |cs|
  {
    if cs != [] {
      var init := cs[..|cs| - 1];
      var c := cs[|cs| - 1];
      TallyOfConsistent(init, targetPids, value);
      if Counted(c, targetPids, value) {
        AddReadingConsistent(TallyOf(init, targetPids, value), c, value(c.instance).value);
      }
    }
  }

  /**
   * The tally has a process exactly when one of its counters is counted, and
   * its total is the sum of those readings.
   */
  lemma {:induction false} TallyOfTotal(cs: seq<EngineCounter>, targetPids: set<int>, value: string -> Double, pid: int)
    ensures var t := TallyOf(cs, targetPids, value);
      && (pid in t.totals <==> PidReadings(cs, targetPids, value, pid) != [])
      && (pid in t.totals ==> t.totals[pid] == Sum(PidReadings(cs, targetPids, value, pid)))
    decreases |cs|
  {
    if cs != [] {
      var init := cs[..|cs| - 1];
      var c := cs[|cs| - 1];
      TallyOfTotal(init, targetPids, value, pid);
      var before := PidReadings(init, targetPids, value, pid);
      if Counted(c, targetPids, value) && c.pid == pid {
        var v := value(c.instance).value;
        SumAppend(before, [v]);
        assert Sum([v]) == v;
        assert PidReadings(cs, targetPids, value, pid) == before + [v];
      } else {
        assert PidReadings(cs, targetPids, value, pid) == before;
      }
    }
  }

  /** Only target processes get a GPU figure when targets are given. */
  lemma {:induction false} PidReadingsTargeted(cs: seq<EngineCounter>, targetPids: set<int>, value: string -> Double, pid: int)
    requires |targetPids| > 0 && pid !in targetPids
    ensures PidReadings(cs, targetPids, value, pid) == []
    decreases |cs|
  {
    if cs != [] {
      PidReadingsTargeted(cs[..|cs| - 1], targetPids, value, pid);
    }
  }

  /** Each process's total clamped to [0, 100]. */
  function ClampedTotals(t: Tally): (m: map<int, real>)
    ensures m.Keys == t.totals.Keys
    ensures forall pid :: pid in m ==> 0.0 <= m[pid] <= 100.0
  {
    map pid | pid in t.totals :: Clamp(t.totals[pid], 0.0, 100.0)
  }

  /** Each process's shares rescaled to its clamped total. */
  function RescaledShares(t: Tally): (m: map<int, seq<AdapterShare>>)
  {
    map pid | pid in t.shares && pid in t.totals :: Rescaled(t.shares[pid], Clamp(t.totals[pid], 0.0, 100.0))
  }

  /**
   * After clamping, a process with a positive total shows its adapter shares
   * adding up to its clamped GPU figure.
   */
  lemma RescaledSharesSum(t: Tally, pid: int)
    requires Consistent(t) && pid in t.totals && t.totals[pid] > 0.0
    ensures SumShares(RescaledShares(t)[pid]) == ClampedTotals(t)[pid]
  {
  }

  /** The sum loop and the scaling loop for one process's adapter map. */
  method RescaleShares(s: seq<AdapterShare>, total: real) returns (r: seq<AdapterShare>)
    ensures r == Rescaled(s, total)
  {
    var sum := 0.0;
    var i := 0;
    while i < |s|
      invariant 0 <= i <= |s|
      invariant sum == SumShares(s[..i])
    {
      assert s[..i + 1][..i] == s[..i];
      sum := sum + s[i].percent;
      i := i + 1;
    }
    assert s[..|s|] == s;
    r := s;
    if sum > 0.0 {
      var factor := total / sum;
      var k := 0;
      while k < |r|
        invariant 0 <= k <= |r| == |s|
        invariant forall j :: 0 <= j < k ==> r[j] == s[j].(percent := s[j].percent * factor)
        invariant forall j :: k <= j < |r| ==> r[j] == s[j]
      {
        r := r[k := r[k].(percent := r[k].percent * factor)];
        k := k + 1;
      }
      assert forall j :: 0 <= j < |s| ==> r[j] == Scale(s, factor)[j];
      assert r == Scale(s, factor);
    }
  }

  /** The totals with the processes in `done` clamped. */
  ghost function ClampedUpTo(t: Tally, done: set<int>): map<int, real> {
    map pid | pid in t.totals :: if pid in done then Clamp(t.totals[pid], 0.0, 100.0) else t.totals[pid]
  }

  /** The shares with the processes in `done` rescaled. */
  ghost function RescaledUpTo(t: Tally, done: set<int>): map<int, seq<AdapterShare>>
    requires t.shares.Keys == t.totals.Keys
  {
    map pid | pid in t.shares :: if pid in done then Rescaled(t.shares[pid], Clamp(t.totals[pid], 0.0, 100.0)) else t.shares[pid]
  }

  lemma ClampStep(t: Tally, done: set<int>, pid: int)
    requires t.shares.Keys == t.totals.Keys && pid in t.totals
    requires pid !in done
    ensures ClampedUpTo(t, done)[pid := Clamp(ClampedUpTo(t, done)[pid], 0.0, 100.0)] == ClampedUpTo(t, done + {pid})
    ensures RescaledUpTo(t, done)[pid := Rescaled(RescaledUpTo(t, done)[pid], Clamp(t.totals[pid], 0.0, 100.0))]
      == RescaledUpTo(t, done + {pid})
  {
  }

  lemma ClampDone(t: Tally)
    requires t.shares.Keys == t.totals.Keys
    ensures ClampedUpTo(t, t.totals.Keys) == ClampedTotals(t)
    ensures RescaledUpTo(t, t.totals.Keys) == RescaledShares(t)
  {
  }

  /** The processes among the first `i` of the order. */
  ghost function Seen(order: seq<int>, i: nat): set<int>
    requires i <= |order|
  {
    set j | 0 <= j < i :: order[j]
  }

  /** The next process of a consistent tally's order is one not yet seen, and has a total. */
  lemma SeenStep(t: Tally, i: nat)
    requires Consistent(t) && i < |t.order|
    ensures t.order[i] !in Seen(t.order, i) && t.order[i] in t.totals
    ensures Seen(t.order, i + 1) == Seen(t.order, i) + {t.order[i]}
  {
    assert t.order[i] in t.order;
    forall pid | pid in Seen(t.order, i) ensures pid != t.order[i] {
      var j :| 0 <= j < i && t.order[j] == pid;
    }
    forall pid | pid in Seen(t.order, i + 1) ensures pid in Seen(t.order, i) + {t.order[i]} {
      var j :| 0 <= j < i + 1 && t.order[j] == pid;
      if j < i {
        assert pid in Seen(t.order, i);
      }
    }
  }

  /** The whole order is exactly the processes with a total. */
  lemma SeenAll(t: Tally)
    requires Consistent(t)
    ensures Seen(t.order, |t.order|) == t.totals.Keys
  {
    forall pid | pid in t.totals ensures pid in Seen(t.order, |t.order|) {
      var j :| 0 <= j < |t.order| && t.order[j] == pid;
    }
    forall pid | pid in Seen(t.order, |t.order|) ensures pid in t.totals {
      var j :| 0 <= j < |t.order| && t.order[j] == pid;
      assert t.order[j] in t.order;
    }
  }

  /** The clamp loop: every process's total clamped to [0, 100] and its shares rescaled. */
  method ClampTally(t: Tally) returns (results: map<int, real>, shares: map<int, seq<AdapterShare>>)
    requires Consistent(t)
    ensures results == ClampedTotals(t)
    ensures shares == RescaledShares(t)
  {
    results := t.totals;
    shares := t.shares;
    assert Seen(t.order, 0) == {};
    assert results == ClampedUpTo(t, {}) && shares == RescaledUpTo(t, {});
    var i := 0;
    while i < |t.order|
      invariant 0 <= i <= |t.order|
      invariant results == ClampedUpTo(t, Seen(t.order, i))
      invariant shares == RescaledUpTo(t, Seen(t.order, i))
    {
      var pid := t.order[i];
      SeenStep(t, i);
      ClampStep(t, Seen(t.order, i), pid);
      var v := Clamp(results[pid], 0.0, 100.0);
      results := results[pid := v];
      var rescaled := RescaleShares(shares[pid], v);
      shares := shares[pid := rescaled];
      i := i + 1;
    }
    SeenAll(t);
    ClampDone(t);
  }

  /**
   * A lookup in a dictionary keyed by instance name ignoring case: the
   * position of the counter whose upper-cased name is `key`.
   */
  function FindKey(cs: seq<EngineCounter>, key: string): (r: Option<nat>)
    ensures r.Some? ==> r.value < |cs| && ToUpper(cs[r.value].instance) == key
    ensures r.None? <==> forall k :: 0 <= k < |cs| ==> ToUpper(cs[k].instance) != key
  {
    FirstWhereIsFirst(cs, (c: EngineCounter) => ToUpper(c.instance) == key);
    FirstWhere(cs, (c: EngineCounter) => ToUpper(c.instance) == key)
  }

  /**
   * Assignment into such a dictionary: a counter under a matching name
   * replaces the old one, which keeps the name's first spelling; otherwise
   * it is added last.
   */
  function Upsert(cs: seq<EngineCounter>, c: EngineCounter): (r: seq<EngineCounter>)
    ensures FindKey(cs, ToUpper(c.instance)).None? ==> r == cs + [c]
    ensures FindKey(cs, ToUpper(c.instance)).Some? ==> var k := FindKey(cs, ToUpper(c.instance)).value;
      r == cs[k := c.(instance := cs[k].instance)]
  {
    match FindKey(cs, ToUpper(c.instance))
    case None => cs + [c]
    case Some(k) => cs[k := c.(instance := cs[k].instance)]
  }

  /** When the counter of an instance was created: a surviving counter's time, else now. */
  function Born(previous: seq<EngineCounter>, instance: string, now: nat): (t: nat)
    ensures FindKey(previous, ToUpper(instance)).None? ==> t == now
    ensures FindKey(previous, ToUpper(instance)).Some? ==> t == previous[FindKey(previous, ToUpper(instance)).value].created
  {
    match FindKey(previous, ToUpper(instance))
    case Some(k) => previous[k].created
    case None => now
  }

  /**
   * The counter set a rebuild makes from the instance names in order: an
   * instance whose name gives a positive process id keeps its old counter, or
   * gets a new one when the counter can be created; the others are skipped.
   */
  function Rebuilt(instances: seq<string>, previous: seq<EngineCounter>, canCreate: string -> bool, now: nat): (cs: seq<EngineCounter>)
    decreases |instances|
  {
    if instances == [] then []
    else
      var acc := Rebuilt(instances[..|instances| - 1], previous, canCreate, now);
      var name := instances[|instances| - 1];
      var pid := InstancePid(name);
      if pid > 0 && (FindKey(previous, ToUpper(name)).Some? || canCreate(name)) then
        Upsert(acc, EngineCounter(name, pid, Born(previous, name, now)))
      else acc
  }

  /** Counters belong to processes, and no two have the same name ignoring case. */
  ghost predicate WellFormed(cs: seq<EngineCounter>) {
    && (forall k :: 0 <= k < |cs| ==> cs[k].pid > 0)
    && (forall i, j :: 0 <= i < j < |cs| ==> ToUpper(cs[i].instance) != ToUpper(cs[j].instance))
  }

  /** Every counter carries its creation time: reused when an old counter had its name. */
  ghost predicate BornFrom(cs: seq<EngineCounter>, previous: seq<EngineCounter>, now: nat) {
    forall k :: 0 <= k < |cs| ==> cs[k].created == Born(previous, cs[k].instance, now)
  }

  lemma UpsertKeeps(cs: seq<EngineCounter>, c: EngineCounter, previous: seq<EngineCounter>, now: nat)
    requires WellFormed(cs) && BornFrom(cs, previous, now)
    requires c.pid > 0 && c.created == Born(previous, c.instance, now)
    ensures WellFormed(Upsert(cs, c)) && BornFrom(Upsert(cs, c), previous, now)
  {
    var r := Upsert(cs, c);
    match FindKey(cs, ToUpper(c.instance))
    case None =>
      assert r == cs + [c];
    case Some(k) =>
      assert forall j :: 0 <= j < |cs| ==> ToUpper(r[j].instance) == ToUpper(cs[j].instance);
  }

  /** After an assignment the dictionary has the assigned name and every name it had. */
  lemma UpsertHas(cs: seq<EngineCounter>, c: EngineCounter, key: string)
    requires key == ToUpper(c.instance) || FindKey(cs, key).Some?
    ensures FindKey(Upsert(cs, c), key).Some?
  {
    var r := Upsert(cs, c);
    match FindKey(cs, ToUpper(c.instance))
    case None =>
      assert r == cs + [c];
      if key == ToUpper(c.instance) {
        assert ToUpper(r[|cs|].instance) == key;
      } else {
        var k := FindKey(cs, key).value;
        assert r[k] == cs[k];
      }
    case Some(k) =>
      if key == ToUpper(c.instance) {
        assert ToUpper(r[k].instance) == key;
      } else {
        var j := FindKey(cs, key).value;
        assert ToUpper(r[j].instance) == key;
      }
  }

  /**
   * A rebuilt counter set holds counters of processes under distinct names,
   * and a counter whose instance already had one is that old counter; the
   * others are new.
   */
  lemma {:induction false} RebuiltWellFormed(instances: seq<string>, previous: seq<EngineCounter>, canCreate: string -> bool, now: nat)
    ensures var cs := Rebuilt(instances, previous, canCreate, now);
      WellFormed(cs) && BornFrom(cs, previous, now)
    decreases |instances|
  {
    if instances != [] {
      var init := instances[..|instances| - 1];
      var name := instances[|instances| - 1];
      RebuiltWellFormed(init, previous, canCreate, now);
      var acc := Rebuilt(init, previous, canCreate, now);
      var pid := InstancePid(name);
      if pid > 0 && (FindKey(previous, ToUpper(name)).Some? || canCreate(name)) {
        UpsertKeeps(acc, EngineCounter(name, pid, Born(previous, name, now)), previous, now);
      }
    }
  }

  /**
   * Every instance with a positive process id whose counter survives or can
   * be created is in the rebuilt set.
   */
  lemma {:induction false} RebuiltHas(instances: seq<string>, previous: seq<EngineCounter>, canCreate: string -> bool, now: nat, k: nat)
    requires k < |instances| && InstancePid(instances[k]) > 0
    requires FindKey(previous, ToUpper(instances[k])).Some? || canCreate(instances[k])
    ensures FindKey(Rebuilt(instances, previous, canCreate, now), ToUpper(instances[k])).Some?
    decreases |instances|
  {
    var init := instances[..|instances| - 1];
    var name := instances[|instances| - 1];
    var acc := Rebuilt(init, previous, canCreate, now);
    var pid := InstancePid(name);
    var key := ToUpper(instances[k]);
    var c := EngineCounter(name, pid, Born(previous, name, now));
    var grows := pid > 0 && (FindKey(previous, ToUpper(name)).Some? || canCreate(name));
    assert Rebuilt(instances, previous, canCreate, now) == if grows then Upsert(acc, c) else acc;
    if k < |init| {
      assert init[k] == instances[k];
      RebuiltHas(init, previous, canCreate, now, k);
      if grows {
        UpsertHas(acc, c, key);
      }
    } else {
      assert k == |instances| - 1;
      assert instances[k] == name;
      assert grows;
      UpsertHas(acc, c, key);
    }
  }

  /** The old counters no counter of the new set has the name of; a rebuild disposes exactly these. */
  function Retired(previous: seq<EngineCounter>, cs: seq<EngineCounter>): (r: seq<EngineCounter>)
  {
    Filter(previous, (o: EngineCounter) => FindKey(cs, ToUpper(o.instance)).None?)
  }

  /** The rebuild loop of EnsureGpuCounters. */
  method RebuildCounters(instances: seq<string>, previous: seq<EngineCounter>, canCreate: string -> bool, now: nat)
    returns (cs: seq<EngineCounter>)
    ensures cs == Rebuilt(instances, previous, canCreate, now)
  {
    cs := [];
    var i := 0;
    while i < |instances|
      invariant 0 <= i <= |instances|
      invariant cs == Rebuilt(instances[..i], previous, canCreate, now)
    {
      var name := instances[i];
      assert instances[..i + 1][..i] == instances[..i];
      var pid := ParsePid(name);
      if pid > 0 {
        var existing := FindKey(previous, ToUpper(name));
        if existing.Some? {
          cs := Upsert(cs, EngineCounter(name, pid, previous[existing.value].created));
        } else if canCreate(name) {
          cs := Upsert(cs, EngineCounter(name, pid, now));
        }
      }
      i := i + 1;
    }
    assert instances[..|instances|] == instances;
  }

  /** The dispose loop of EnsureGpuCounters. */
  method DisposeRetired(previous: seq<EngineCounter>, cs: seq<EngineCounter>) returns (disposed: seq<EngineCounter>)
    ensures disposed == Retired(previous, cs)
  {
    var gone := (o: EngineCounter) => FindKey(cs, ToUpper(o.instance)).None?;
    disposed := [];
    var i := 0;
    while i < |previous|
      invariant 0 <= i <= |previous|
      invariant disposed == Filter(previous[..i], gone)
    {
      FilterSnoc(previous[..i], previous[i], gone);
      assert previous[..i + 1] == previous[..i] + [previous[i]];
      if FindKey(cs, ToUpper(previous[i].instance)).None? {
        disposed := disposed + [previous[i]];
      }
      i := i + 1;
    }
    assert previous[..|previous|] == previous;
  }

  /** The counter set of the service and the time it was last rebuilt. */
  datatype CounterSet = CounterSet(counters: seq<EngineCounter>, refreshedAt: nat)

  const CounterRefreshMs: int := 3000
  const GpuCacheMs: int := 1000
  const ParentTtlMs: int := 5000

  /** A rebuild is due when there are no counters or the set is more than 3 s old. */
  predicate RefreshDue(cs: CounterSet, now: nat) {
    |cs.counters| == 0 || now - cs.refreshedAt > CounterRefreshMs
  }

  /**
   * The counter set after EnsureGpuCounters: unchanged when no rebuild is
   * due; otherwise stamped now and rebuilt from the instance names, or empty
   * when the GPU Engine category cannot be read (None).
   */
  function Refreshed(cs: CounterSet, now: nat, instances: Option<seq<string>>, canCreate: string -> bool): (r: CounterSet)
    ensures !RefreshDue(cs, now) ==> r == cs
    ensures RefreshDue(cs, now) ==> r.refreshedAt == now
    ensures RefreshDue(cs, now) && instances.None? ==> r.counters == []
  {
    if !RefreshDue(cs, now) then cs
    else if instances.None? then CounterSet([], now)
    else CounterSet(Rebuilt(instances.value, cs.counters, canCreate, now), now)
  }

  /** The cached GPU figures of the target processes. */
  function Restrict(m: map<int, real>, targetPids: set<int>): (r: map<int, real>)
    ensures forall pid :: pid in r <==> pid in targetPids && pid in m
    ensures forall pid :: pid in r ==> r[pid] == m[pid]
  {
    map pid | pid in targetPids && pid in m :: m[pid]
  }

  /** One link of the parent-process query: a process and its parent. */
  datatype ParentLink = ParentLink(processId: int, parentProcessId: int)

  /** The map the query loop builds: each process to its parent, a later link winning. */
  function ParentMapOf(links: seq<ParentLink>): (m: map<int, int>)
    decreases |links|
  {
    if links == [] then map[]
    else
      var l := links[|links| - 1];
      ParentMapOf(links[..|links| - 1])[l.processId := l.parentProcessId]
  }

  /** The parent map holds exactly the queried processes, each with the parent of its last link. */
  lemma {:induction false} ParentMapOfFacts(links: seq<ParentLink>)
    ensures var m := ParentMapOf(links);
      && (forall pid :: pid in m <==> exists k :: 0 <= k < |links| && links[k].processId == pid)
      && (forall k :: 0 <= k < |links| && (forall j :: k < j < |links| ==> links[j].processId != links[k].processId)
            ==> m[links[k].processId] == links[k].parentProcessId)
    decreases |links|
  {
    if links != [] {
      var init := links[..|links| - 1];
      ParentMapOfFacts(init);
      forall k | 0 <= k < |init| ensures init[k] == links[k] { }
      var m := ParentMapOf(links);
      forall pid | pid in m ensures exists k :: 0 <= k < |links| && links[k].processId == pid {
        if pid != links[|links| - 1].processId {
          var k :| 0 <= k < |init| && init[k].processId == pid;
          assert links[k].processId == pid;
        }
      }
    }
  }

  /** The query loop of GetParentMap. */
  method QueryParents(links: seq<ParentLink>) returns (m: map<int, int>)
    ensures m == ParentMapOf(links)
  {
    m := map[];
    var i := 0;
    while i < |links|
      invariant 0 <= i <= |links|
      invariant m == ParentMapOf(links[..i])
    {
      assert links[..i + 1][..i] == links[..i];
      m := m[links[i].processId := links[i].parentProcessId];
      i := i + 1;
    }
    assert links[..|links|] == links;
  }

  /** ParentProcessMapCache: the parent map, re-queried at most every 5 s. */
  class ParentProcessMapCache {
    var lastMap: map<int, int>
    var lastRefreshUtc: nat

    constructor ()
      ensures lastMap == map[] && lastRefreshUtc == 0
    {
      lastMap := map[];
      lastRefreshUtc := 0;
    }

    /**
     * The last map while it is younger than 5 s and not empty; otherwise the
     * result of a new query (None when it throws, which keeps the last map
     * and its time).
     */
    method GetParentMap(now: nat, query: Option<seq<ParentLink>>) returns (parents: map<int, int>)
      modifies this
      ensures var reuse := now - old(lastRefreshUtc) < ParentTtlMs && |old(lastMap)| > 0;
        && (reuse || query.None? ==> lastMap == old(lastMap) && lastRefreshUtc == old(lastRefreshUtc))
        && (!reuse && query.Some? ==> lastMap == ParentMapOf(query.value) && lastRefreshUtc == now)
      ensures parents == lastMap
    {
      if now - lastRefreshUtc < ParentTtlMs && |lastMap| > 0 {
        return lastMap;
      }
      if query.Some? {
        var m := QueryParents(query.value);
        lastMap := m;
        lastRefreshUtc := now;
      }
      parents := lastMap;
    }
  }

  /** What the operating system reports for one sample. */
  datatype SystemReadings = SystemReadings(
    /** Process.GetProcesses; None when it throws, which samples no process. */
    processes: Option<seq<ProcessSnapshot>>,
    /** The MemoryMetric setting. */
    metric: Settings.MemoryMetric,
    /** The batch "Working Set" and "Working Set - Private" readings by process id. */
    workingSetByPid: map<int, int>,
    privateByPid: map<int, int>,
    /** The Win32_Process query; None when it throws. */
    parentQuery: Option<seq<ParentLink>>,
    /** The GPU Engine instance names; None when the category cannot be read. */
    engineInstances: Option<seq<string>>,
    /** Whether a counter for an instance can be created and primed. */
    counterCreatable: string -> bool,
    /** What each counter reads. */
    counterValue: string -> Double)
  {
    function Snapshots(): seq<ProcessSnapshot> {
      if processes.Some? then processes.value else []
    }
  }

  /** The process ids of a snapshot. */
  function PidsOf(ps: seq<ProcessSnapshot>): (pids: set<int>)
    ensures forall k :: 0 <= k < |ps| ==> ps[k].id in pids
    ensures forall pid :: pid in pids ==> exists k :: 0 <= k < |ps| && ps[k].id == pid
  {
    set p | p in ps :: p.id
  }

  /** A row with the GPU figure and adapter shares of its process, when there are any. */
  function WithGpuRow(row: ProcessInfo, gpu: map<int, real>, adapters: map<int, seq<AdapterShare>>): (r: ProcessInfo)
    ensures r.(gpuPercent := row.gpuPercent, gpuByAdapterPercent := row.gpuByAdapterPercent) == row
    ensures row.processId in gpu ==> r.gpuPercent == gpu[row.processId]
    ensures row.processId !in gpu ==> r.gpuPercent == row.gpuPercent
    ensures row.processId in adapters ==> r.gpuByAdapterPercent == adapters[row.processId]
    ensures row.processId !in adapters ==> r.gpuByAdapterPercent == row.gpuByAdapterPercent
  {
    var withPercent := if row.processId in gpu then row.(gpuPercent := gpu[row.processId]) else row;
    if row.processId in adapters then withPercent.(gpuByAdapterPercent := adapters[row.processId]) else withPercent
  }

  function WithGpu(rows: seq<ProcessInfo>, gpu: map<int, real>, adapters: map<int, seq<AdapterShare>>): (r: seq<ProcessInfo>)
    ensures |r| == |rows| && forall k :: 0 <= k < |rows| ==> r[k] == WithGpuRow(rows[k], gpu, adapters)
  {
    seq(|rows|, k requires 0 <= k < |rows| => WithGpuRow(rows[k], gpu, adapters))
  }

  /** The GPU loop of SampleProcesses. */
  method AttachGpu(rows: seq<ProcessInfo>, gpu: map<int, real>, adapters: map<int, seq<AdapterShare>>) returns (r: seq<ProcessInfo>)
    ensures r == WithGpu(rows, gpu, adapters)
  {
    r := rows;
    var i := 0;
    while i < |r|
      invariant 0 <= i <= |r| == |rows|
      invariant forall k :: 0 <= k < i ==> r[k] == WithGpuRow(rows[k], gpu, adapters)
      invariant forall k :: i <= k < |r| ==> r[k] == rows[k]
    {
      var pi := r[i];
      if pi.processId in gpu {
        pi := pi.(gpuPercent := gpu[pi.processId]);
      }
      if pi.processId in adapters {
        pi := pi.(gpuByAdapterPercent := adapters[pi.processId]);
      }
      r := r[i := pi];
      i := i + 1;
    }
  }

  function Named(rows: seq<ProcessInfo>): (r: seq<ProcessInfo>)
    ensures |r| == |rows| && forall k :: 0 <= k < |rows| ==> r[k] == rows[k].(name := NormalizeExe(rows[k].name))
  {
    seq(|rows|, k requires 0 <= k < |rows| => rows[k].(name := NormalizeExe(rows[k].name)))
  }

  /** The name loop of SampleProcesses. */
  method NormalizeNames(rows: seq<ProcessInfo>) returns (r: seq<ProcessInfo>)
    ensures r == Named(rows)
  {
    r := rows;
    var i := 0;
    while i < |r|
      invariant 0 <= i <= |r| == |rows|
      invariant forall k :: 0 <= k < i ==> r[k] == rows[k].(name := NormalizeExe(rows[k].name))
      invariant forall k :: i <= k < |r| ==> r[k] == rows[k]
    {
      var pi := r[i];
      if pi.name != [] && !EndsWithIgnoreCase(pi.name, ".exe") {
        pi := pi.(name := pi.name + ".exe");
      }
      r := r[i := pi];
      i := i + 1;
    }
  }

  /** Reading one more snapshot adds its row, if any, and remembers its time. */
  lemma RowsStep(ps: seq<ProcessSnapshot>, i: nat, last: map<int, real>, r: Readings)
    requires r.Valid() && i < |ps|
    ensures var p := ps[i]; var before := TimesAfter(ps[..i], last);
      && Rows(ps[..i + 1], last, r) == Rows(ps[..i], last, r) + (if p.totalProcessorMs.Some? then [Row(p, before, r)] else [])
      && TimesAfter(ps[..i + 1], last) == (if p.totalProcessorMs.Some? then before[p.id := p.totalProcessorMs.value] else before)
  {
    assert ps[..i + 1][..i] == ps[..i];
  }

  /** The process loop of SampleProcesses: the rows and the remembered processor times. */
  method ReadRows(ps: seq<ProcessSnapshot>, last: map<int, real>, r: Readings) returns (rows: seq<ProcessInfo>, times: map<int, real>)
    requires r.Valid()
    ensures rows == Rows(ps, last, r)
    ensures times == TimesAfter(ps, last)
  {
    rows := [];
    times := last;
    var i := 0;
    while i < |ps|
      invariant 0 <= i <= |ps|
      invariant rows == Rows(ps[..i], last, r)
      invariant times == TimesAfter(ps[..i], last)
    {
      var p := ps[i];
      RowsStep(ps, i, last, r);
      if p.totalProcessorMs.Some? {
        var total := p.totalProcessorMs.value;
        var previous := if p.id in times then times[p.id] else total;
        var cpu := CpuPercent(total - previous, r.elapsedMs, r.processorCount);
        var row := ProcessInfo(p.id, p.processName, cpu,
          MemoryBytes(r.metric, p.id, r.workingSetByPid, r.privateByPid, p.workingSet64),
          0.0, ParentOf(r.parentMap, p.id), []);
        assert row == Row(p, times, r);
        times := times[p.id := total];
        rows := rows + [row];
      }
      i := i + 1;
    }
    assert ps[..|ps|] == ps;
  }

  /** The counter loop of SampleGpuUsageByPid: each counted counter adds its reading. */
  method TallyCounters(cs: seq<EngineCounter>, targetPids: set<int>, value: string -> Double) returns (t: Tally)
    ensures t == TallyOf(cs, targetPids, value)
  {
    t := Tally(map[], map[], []);
    var i := 0;
    while i < |cs|
      invariant 0 <= i <= |cs|
      invariant t == TallyOf(cs[..i], targetPids, value)
    {
      assert cs[..i + 1][..i] == cs[..i];
      var c := cs[i];
      if c.instance != [] && (|targetPids| == 0 || c.pid in targetPids) {
        var v := value(c.instance);
        if v.Finite? {
          t := AddReading(t, c, v.value);
        }
      }
      i := i + 1;
    }
    assert cs[..|cs|] == cs;
  }

  /**
   * After a fresh sample every process has adapter shares, and shares that add
   * up to anything positive add up to the process's clamped GPU figure.
   */
  lemma RescaledSharesAgree(t: Tally)
    requires Consistent(t)
    ensures RescaledShares(t).Keys == ClampedTotals(t).Keys
    ensures forall pid :: pid in RescaledShares(t) && SumShares(RescaledShares(t)[pid]) > 0.0 ==>
      SumShares(RescaledShares(t)[pid]) == ClampedTotals(t)[pid]
  {
  }

  /** Every row belongs to one of the processes. */
  predicate RowsWithin(rows: seq<ProcessInfo>, pids: set<int>) {
    forall k :: 0 <= k < |rows| ==> rows[k].processId in pids
  }

  /** GPU figures that agree on the rows' processes attach the same way. */
  lemma WithGpuAgree(rows: seq<ProcessInfo>, g1: map<int, real>, g2: map<int, real>,
                     adapters: map<int, seq<AdapterShare>>, pids: set<int>)
    requires RowsWithin(rows, pids)
    requires forall pid :: pid in pids ==> (pid in g1 <==> pid in g2) && (pid in g1 ==> g1[pid] == g2[pid])
    ensures WithGpu(rows, g1, adapters) == WithGpu(rows, g2, adapters)
  {
    forall k | 0 <= k < |rows| ensures WithGpu(rows, g1, adapters)[k] == WithGpu(rows, g2, adapters)[k] {
      assert rows[k].processId in pids;
    }
  }

  /** Every row of a sample belongs to a process of the snapshot. */
  lemma RowsOfSnapshot(ps: seq<ProcessSnapshot>, last: map<int, real>, r: Readings)
    requires r.Valid()
    ensures RowsWithin(Rows(ps, last, r), PidsOf(ps))
  {
    RowsFacts(ps, last, r);
    var readable := Filter(ps, (p: ProcessSnapshot) => p.totalProcessorMs.Some?);
    forall k | 0 <= k < |Rows(ps, last, r)| ensures Rows(ps, last, r)[k].processId in PidsOf(ps) {
      assert readable[k] in ps;
    }
  }

  /** A row as a sample returns it: a share never negative, a GPU figure within [0, 100], a normalised name. */
  predicate SampledRow(x: ProcessInfo) {
    && x.cpuPercent >= 0.0
    && 0.0 <= x.gpuPercent <= 100.0
    && (x.name == [] || EndsWithIgnoreCase(x.name, ".exe"))
  }

  /** Rows read fresh, given clamped GPU figures and normalised names, are sampled rows. */
  lemma NamedRowsSampled(rows: seq<ProcessInfo>, gpu: map<int, real>, adapters: map<int, seq<AdapterShare>>)
    requires forall k :: 0 <= k < |rows| ==> rows[k].cpuPercent >= 0.0 && rows[k].gpuPercent == 0.0
    requires forall pid :: pid in gpu ==> 0.0 <= gpu[pid] <= 100.0
    ensures forall k :: 0 <= k < |rows| ==> SampledRow(Named(WithGpu(rows, gpu, adapters))[k])
  {
  }

  /** Every row the top-200 cut keeps is one of its input rows. */
  lemma TopByCpuMembers(rows: seq<ProcessInfo>)
    ensures |TopByCpu(rows)| <= TopCount
    ensures forall k :: 0 <= k < |TopByCpu(rows)| ==> TopByCpu(rows)[k] in rows
  {
    var top := TopByCpu(rows);
    TopByCpuFacts(rows);
    forall k | 0 <= k < |top| ensures top[k] in rows {
      assert top[k] in multiset(top);
    }
  }

  /**
   * What a sample returns: at most 200 rows, none with a negative CPU share,
   * every GPU figure within [0, 100], and every name normalised.
   */
  lemma SampleFacts(rows: seq<ProcessInfo>, gpu: map<int, real>, adapters: map<int, seq<AdapterShare>>)
    requires forall k :: 0 <= k < |rows| ==> rows[k].cpuPercent >= 0.0 && rows[k].gpuPercent == 0.0
    requires forall pid :: pid in gpu ==> 0.0 <= gpu[pid] <= 100.0
    ensures var top := TopByCpu(Named(WithGpu(rows, gpu, adapters)));
      |top| <= TopCount && forall k :: 0 <= k < |top| ==> SampledRow(top[k])
  {
    var named := Named(WithGpu(rows, gpu, adapters));
    NamedRowsSampled(rows, gpu, adapters);
    TopByCpuMembers(named);
    var top := TopByCpu(named);
    forall k | 0 <= k < |top| ensures SampledRow(top[k]) {
      var j :| 0 <= j < |named| && named[j] == top[k];
    }
  }

  /** A sequence that visits exactly the elements of a set, as a foreach over the set does. */
  ghost predicate Enumerates(order: seq<int>, pids: set<int>) {
    forall pid :: pid in order <==> pid in pids
  }

  /** The process ids of a snapshot in order. */
  function IdsOf(ps: seq<ProcessSnapshot>): (ids: seq<int>)
    ensures |ids| == |ps| && forall k :: 0 <= k < |ps| ==> ids[k] == ps[k].id
    ensures Enumerates(ids, PidsOf(ps))
  {
    var ids := seq(|ps|, k requires 0 <= k < |ps| => ps[k].id);
    assert forall pid :: pid in PidsOf(ps) ==> pid in ids by {
      forall pid | pid in PidsOf(ps) ensures pid in ids {
        var k :| 0 <= k < |ps| && ps[k].id == pid;
        assert ids[k] == pid;
      }
    }
    ids
  }

  /** ProcessMonitorService: the sampler and its caches. */
  class ProcessMonitorService {
    /** Each process's processor time at the previous sample. */
    var lastTotalProcessorTime: map<int, real>
    var lastSampleUtc: nat
    /** Environment.ProcessorCount. */
    const processorCount: int
    /** The GPU-engine counters held, in the order they were added. */
    var gpuCounters: seq<EngineCounter>
    var lastGpuRefreshUtc: nat
    var lastGpuResultsByPid: map<int, real>
    var lastGpuSampleUtc: nat
    var lastGpuByAdapterPerPid: map<int, seq<AdapterShare>>
    const parentCache: ParentProcessMapCache

    /**
     * The counters are well formed, the cached GPU figures lie in [0, 100],
     * and the cached adapter shares belong to the cached processes and add up
     * to their figures whenever they add up to anything positive.
     */
    ghost predicate Valid()
      reads this`gpuCounters, this`lastGpuResultsByPid, this`lastGpuByAdapterPerPid
    {
      && processorCount > 0
      && WellFormed(gpuCounters)
      && (forall pid :: pid in lastGpuResultsByPid ==> 0.0 <= lastGpuResultsByPid[pid] <= 100.0)
      && lastGpuByAdapterPerPid.Keys == lastGpuResultsByPid.Keys
      && (forall pid :: pid in lastGpuByAdapterPerPid && SumShares(lastGpuByAdapterPerPid[pid]) > 0.0 ==>
            SumShares(lastGpuByAdapterPerPid[pid]) == lastGpuResultsByPid[pid])
    }

    /** A new service: nothing remembered, the sample clock started now, the GPU caches never filled. */
    constructor (now: nat, processorCount: int)
      requires processorCount > 0
      ensures Valid()
      ensures lastTotalProcessorTime == map[] && lastSampleUtc == now && this.processorCount == processorCount
      ensures gpuCounters == [] && lastGpuRefreshUtc == 0
      ensures lastGpuResultsByPid == map[] && lastGpuSampleUtc == 0 && lastGpuByAdapterPerPid == map[]
      ensures fresh(parentCache) && parentCache.lastMap == map[] && parentCache.lastRefreshUtc == 0
    {
      lastTotalProcessorTime := map[];
      lastSampleUtc := now;
      this.processorCount := processorCount;
      gpuCounters := [];
      lastGpuRefreshUtc := 0;
      lastGpuResultsByPid := map[];
      lastGpuSampleUtc := 0;
      lastGpuByAdapterPerPid := map[];
      parentCache := new ParentProcessMapCache();
    }

    /**
     * EnsureGpuCounters: the counter set becomes Refreshed of the old one. A
     * rebuild disposes the old counters the new set does not have; when the
     * category cannot be read the counters are dropped without disposal.
     */
    method EnsureGpuCounters(now: nat, instances: Option<seq<string>>, canCreate: string -> bool)
      returns (disposed: seq<EngineCounter>)
      requires Valid()
      modifies this`gpuCounters, this`lastGpuRefreshUtc
      ensures Valid()
      ensures CounterSet(gpuCounters, lastGpuRefreshUtc)
        == Refreshed(CounterSet(old(gpuCounters), old(lastGpuRefreshUtc)), now, instances, canCreate)
      ensures disposed == (if RefreshDue(CounterSet(old(gpuCounters), old(lastGpuRefreshUtc)), now) && instances.Some?
                           then Retired(old(gpuCounters), gpuCounters) else [])
    {
      if !(|gpuCounters| == 0 || now - lastGpuRefreshUtc > CounterRefreshMs) {
        return [];
      }
      lastGpuRefreshUtc := now;
      if instances.None? {
        gpuCounters := [];
        return [];
      }
      var previous := gpuCounters;
      var cs := RebuildCounters(instances.value, previous, canCreate, now);
      RebuiltWellFormed(instances.value, previous, canCreate, now);
      disposed := DisposeRetired(previous, cs);
      gpuCounters := cs;
    }

    /**
     * The cache-hit loop of SampleGpuUsageByPid: the cached figures of the
     * target processes, visited in the order their set enumerates them.
     */
    method CachedResults(targetPids: set<int>, order: seq<int>) returns (result: map<int, real>)
      requires Enumerates(order, targetPids)
      ensures result == Restrict(lastGpuResultsByPid, targetPids)
    {
      result := map[];
      var i := 0;
      while i < |order|
        invariant 0 <= i <= |order|
        invariant forall pid :: pid in result <==> pid in lastGpuResultsByPid && pid in order[..i]
        invariant forall pid :: pid in result ==> result[pid] == lastGpuResultsByPid[pid]
      {
        assert order[..i + 1] == order[..i] + [order[i]];
        var pid := order[i];
        if pid in lastGpuResultsByPid {
          result := result[pid := lastGpuResultsByPid[pid]];
        }
        i := i + 1;
      }
      assert order[..|order|] == order;
      var wanted := Restrict(lastGpuResultsByPid, targetPids);
      forall pid ensures pid in result <==> pid in wanted {
        assert pid in order <==> pid in targetPids;
      }
      assert result.Keys == wanted.Keys;
      assert forall pid :: pid in result ==> result[pid] == wanted[pid];
    }

    /**
     * SampleGpuUsageByPid: the counters are refreshed first. Within 1 s of a
     * sample that found something, the cached figures of the target processes
     * are returned and the caches stay; otherwise the counters are read, each
     * process's total clamped to [0, 100] and its adapter shares rescaled to
     * it, and the caches replaced. Either way the result agrees with the cache
     * on every target process.
     */
    method SampleGpuUsageByPid(now: nat, targetPids: set<int>, targetOrder: seq<int>, instances: Option<seq<string>>,
                               canCreate: string -> bool, value: string -> Double)
      returns (result: map<int, real>)
      requires Valid() && Enumerates(targetOrder, targetPids)
      modifies this`gpuCounters, this`lastGpuRefreshUtc, this`lastGpuResultsByPid, this`lastGpuSampleUtc,
        this`lastGpuByAdapterPerPid
      ensures Valid()
      ensures CounterSet(gpuCounters, lastGpuRefreshUtc)
        == Refreshed(CounterSet(old(gpuCounters), old(lastGpuRefreshUtc)), now, instances, canCreate)
      ensures var hit := now - old(lastGpuSampleUtc) < GpuCacheMs && |old(lastGpuResultsByPid)| > 0;
        && (hit ==> && result == Restrict(old(lastGpuResultsByPid), targetPids)
                    && lastGpuResultsByPid == old(lastGpuResultsByPid)
                    && lastGpuByAdapterPerPid == old(lastGpuByAdapterPerPid)
                    && lastGpuSampleUtc == old(lastGpuSampleUtc))
        && (!hit ==> var t := TallyOf(gpuCounters, targetPids, value);
                    && result == ClampedTotals(t)
                    && lastGpuResultsByPid == result
                    && lastGpuByAdapterPerPid == RescaledShares(t)
                    && lastGpuSampleUtc == now)
      ensures forall pid :: pid in targetPids ==>
        (pid in result <==> pid in lastGpuResultsByPid) && (pid in result ==> result[pid] == lastGpuResultsByPid[pid])
    {
      var _ := EnsureGpuCounters(now, instances, canCreate);
      if now - lastGpuSampleUtc < GpuCacheMs && |lastGpuResultsByPid| > 0 {
        result := CachedResults(targetPids, targetOrder);
      } else {
        result := ReadCounters(now, targetPids, value);
      }
    }

    /**
     * The reading part of SampleGpuUsageByPid: the counters' readings summed
     * per process, clamped and rescaled, become the new caches.
     */
    method ReadCounters(now: nat, targetPids: set<int>, value: string -> Double) returns (result: map<int, real>)
      requires Valid()
      modifies this`lastGpuResultsByPid, this`lastGpuSampleUtc, this`lastGpuByAdapterPerPid
      ensures Valid()
      ensures var t := TallyOf(gpuCounters, targetPids, value);
        && result == ClampedTotals(t)
        && lastGpuResultsByPid == result
        && lastGpuByAdapterPerPid == RescaledShares(t)
        && lastGpuSampleUtc == now
    {
      var t := TallyCounters(gpuCounters, targetPids, value);
      assert Consistent(t) by {
        TallyOfConsistent(gpuCounters, targetPids, value);
      }
      var shares;
      result, shares := ClampTally(t);
      lastGpuResultsByPid := result;
      lastGpuByAdapterPerPid := shares;
      lastGpuSampleUtc := now;
      assert Valid() by {
        RescaledSharesAgree(t);
      }
      assert t == TallyOf(gpuCounters, targetPids, value);
    }

    /**
     * The GPU step of SampleProcesses: the figures of the snapshot's processes
     * are sampled and attached to the rows, each row taking the cached figure
     * and adapter shares of its process.
     */
    method AttachSampledGpu(now: nat, pids: set<int>, order: seq<int>, os: SystemReadings, rows: seq<ProcessInfo>)
      returns (r: seq<ProcessInfo>)
      requires Valid() && Enumerates(order, pids)
      requires RowsWithin(rows, pids)
      modifies this`gpuCounters, this`lastGpuRefreshUtc, this`lastGpuResultsByPid, this`lastGpuSampleUtc,
        this`lastGpuByAdapterPerPid
      ensures Valid()
      ensures CounterSet(gpuCounters, lastGpuRefreshUtc)
        == Refreshed(CounterSet(old(gpuCounters), old(lastGpuRefreshUtc)), now, os.engineInstances, os.counterCreatable)
      ensures r == WithGpu(rows, lastGpuResultsByPid, lastGpuByAdapterPerPid)
    {
      var gpu := SampleGpuUsageByPid(now, pids, order, os.engineInstances, os.counterCreatable, os.counterValue);
      WithGpuAgree(rows, gpu, lastGpuResultsByPid, lastGpuByAdapterPerPid, pids);
      r := AttachGpu(rows, gpu, lastGpuByAdapterPerPid);
    }

    /**
     * SampleProcesses: the rows of the readable processes measured against
     * the remembered processor times, with their parents and GPU figures
     * attached and their names normalised, the 200 busiest first. The
     * service then remembers the new processor times and the sample time.
     */
    method SampleProcesses(now: nat, os: SystemReadings) returns (result: seq<ProcessInfo>)
      requires Valid()
      modifies this, parentCache
      ensures Valid()
      ensures lastSampleUtc == now
      ensures lastTotalProcessorTime == TimesAfter(os.Snapshots(), old(lastTotalProcessorTime))
      ensures CounterSet(gpuCounters, lastGpuRefreshUtc)
        == Refreshed(CounterSet(old(gpuCounters), old(lastGpuRefreshUtc)), now, os.engineInstances, os.counterCreatable)
      ensures var r := Readings(EffectiveElapsed(now - old(lastSampleUtc)), processorCount, os.metric,
                                os.workingSetByPid, os.privateByPid, parentCache.lastMap);
        result == TopByCpu(Named(WithGpu(Rows(os.Snapshots(), old(lastTotalProcessorTime), r),
                                         lastGpuResultsByPid, lastGpuByAdapterPerPid)))
    {
      var elapsed := EffectiveElapsed(now - lastSampleUtc);
      var ps := os.Snapshots();
      var parentMap := parentCache.GetParentMap(now, os.parentQuery);
      var r := Readings(elapsed, processorCount, os.metric, os.workingSetByPid, os.privateByPid, parentMap);
      var last := lastTotalProcessorTime;
      var rows, times := ReadRows(ps, last, r);
      RowsOfSnapshot(ps, last, r);
      rows := AttachSampledGpu(now, PidsOf(ps), IdsOf(ps), os, rows);
      rows := NormalizeNames(rows);
      result := TopByCpu(rows);
      lastTotalProcessorTime := times;
      lastSampleUtc := now;
    }
  }
}
