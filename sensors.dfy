/**
 * The CPU reading reconciliation of GetCpuInfo (Services/SystemMonitorService.cs):
 * plausible-range filters, keyword scores, the fallback chain for
 * temperature, power and voltage, the core counts and the per-core order.
 * Sensors arrive as values: walking the hardware tree, the WMI queries and
 * the performance counters are inputs of these functions.
 */
module Sensors {
  import opened Wrappers
  import opened Numerics
  import opened Text
  import opened Collections

  /** SanitizePercent: 0 for NaN, the infinities and negatives, 100 above 100, else the value. */
  function SanitizePercent(v: Double): (r: real)
    ensures 0.0 <= r <= 100.0
    ensures v.Finite? && 0.0 <= v.value <= 100.0 ==> r == v.value
    ensures !v.Finite? || v.value < 0.0 ==> r == 0.0
    ensures v.Finite? && v.value > 100.0 ==> r == 100.0
  {
    if !v.Finite? then 0.0
    else if v.value < 0.0 then 0.0
    else if v.value > 100.0 then 100.0
    else v.value
  }

  /** A sanitised percentage is a fixed point: sanitising twice changes nothing. */
  lemma SanitizePercentIdempotent(v: Double)
    ensures SanitizePercent(Finite(SanitizePercent(v))) == SanitizePercent(v)
  {
  }

  /** NormalizeGpuMemoryValues: whether the raw pair reads as megabytes. */
  predicate ReadsAsMegabytes(usedRaw: real, totalRaw: real) {
    totalRaw > 512.0 || (totalRaw <= 0.0 && usedRaw > 512.0)
  }

  /** NormalizeGpuMemoryValues: both values divided by 1024 when they read as megabytes. */
  function NormalizeGpuMemoryValues(usedRaw: real, totalRaw: real): (r: (real, real))
    ensures ReadsAsMegabytes(usedRaw, totalRaw) ==> r.0 * 1024.0 == usedRaw && r.1 * 1024.0 == totalRaw
    ensures !ReadsAsMegabytes(usedRaw, totalRaw) ==> r == (usedRaw, totalRaw)
  {
    if ReadsAsMegabytes(usedRaw, totalRaw) then (usedRaw / 1024.0, totalRaw / 1024.0) else (usedRaw, totalRaw)
  }

  /**
   * A megabyte total up to 512 GiB comes out in gigabytes that no longer read
   * as megabytes, so normalising the result again leaves it alone.
   */
  lemma NormalizeGpuMemoryStable(usedRaw: real, totalRaw: real)
    requires 512.0 < totalRaw <= 512.0 * 1024.0
    ensures var r := NormalizeGpuMemoryValues(usedRaw, totalRaw);
      r.1 <= 512.0 && r.1 > 0.0 && NormalizeGpuMemoryValues(r.0, r.1) == r
  {
    var r := NormalizeGpuMemoryValues(usedRaw, totalRaw);
    assert r.1 * 1024.0 == totalRaw;
  }

  /** (2048, 8192) in megabytes is (2, 8) in gigabytes, and (2, 8) is already in gigabytes. */
  lemma NormalizeGpuMemoryExamples()
    ensures NormalizeGpuMemoryValues(2048.0, 8192.0) == (2.0, 8.0)
    ensures NormalizeGpuMemoryValues(2.0, 8.0) == (2.0, 8.0)
  {
  }

  datatype SensorType = Load | Temperature | Power | Voltage | Current | Clock | SmallData

  /** An ISensor: its type, its name and its nullable reading. */
  datatype Sensor = Sensor(kind: SensorType, name: string, value: Option<Double>)

  /** `s.Value ?? 0` with a special value read as 0; the filters below only keep finite readings. */
  function Reading(s: Sensor): real {
    if s.value.Some? then s.value.value.OrZero() else 0.0
  }

  /** HasValue, neither NaN nor infinite, and strictly inside (lo, hi). */
  predicate InRange(s: Sensor, lo: real, hi: real) {
    s.value.Some? && s.value.value.Finite? && lo < s.value.value.value < hi
  }

  /** The sensors of one type whose reading lies inside the open range, in their order. */
  function Plausible(sensors: seq<Sensor>, kind: SensorType, lo: real, hi: real): (r: seq<Sensor>)
    ensures forall s :: s in r <==> s in sensors && s.kind == kind && InRange(s, lo, hi)
  {
    Filter(sensors, (s: Sensor) => s.kind == kind && InRange(s, lo, hi))
  }

  function SensorRank(s: Sensor, score: string -> int): Rank {
    Rank(score(s.name) as real, Reading(s))
  }

  /**
   * OrderByDescending(score).ThenByDescending(value).FirstOrDefault(): nothing
   * for no candidates, else a candidate that no candidate outranks.
   */
  function Best(candidates: seq<Sensor>, score: string -> int): (r: Option<Sensor>)
    ensures r.None? <==> candidates == []
    ensures r.Some? ==> r.value in candidates
    ensures r.Some? ==> forall s :: s in candidates ==> !Outranks(SensorRank(s, score), SensorRank(r.value, score))
  {
    if candidates == [] then None
    else Some(candidates[FirstHighest(candidates, (s: Sensor) => SensorRank(s, score))])
  }

  /** A candidate that no other candidate outranks on (score, reading): what Best may return. */
  predicate Unbeaten(s: Sensor, candidates: seq<Sensor>, score: string -> int) {
    s in candidates && forall o :: o in candidates ==> !Outranks(SensorRank(o, score), SensorRank(s, score))
  }

  /** A plausible sensor reads strictly inside its range. */
  lemma PlausibleReading(s: Sensor, sensors: seq<Sensor>, kind: SensorType, lo: real, hi: real)
    requires s in Plausible(sensors, kind, lo, hi)
    ensures s in sensors && s.kind == kind && InRange(s, lo, hi) && lo < Reading(s) < hi
  {
  }

  /** The sum of the weights of the keywords that occur in an upper-cased name. */
  function KeywordScore(upper: string, weights: seq<(string, int)>): (n: int)
    decreases |weights|
  {
    if weights == [] then 0
    else (if Contains(upper, weights[0].0) then weights[0].1 else 0) + KeywordScore(upper, weights[1..])
  }

  /** Some keyword occurs in the upper-cased name. */
  predicate ContainsAny(upper: string, words: seq<string>) {
    exists i :: 0 <= i < |words| && Contains(upper, words[i])
  }

  const TempWeights: seq<(string, int)> :=
    [("TDIE", 100), ("TCTL", 90), ("PACKAGE", 85), ("CPU DIE", 80), ("CORE MAX", 75), ("CCD", 60), ("CPU", 50), ("CORE", 40)]
  const PowerWeights: seq<(string, int)> := [("PACKAGE", 100), ("SOCKET", 90), ("SOC", 80), ("CORE", 60), ("CPU", 50)]
  const AnyPowerWeights: seq<(string, int)> :=
    [("PACKAGE", 100), ("SOCKET", 90), ("SOC", 80), ("CPU", 70), ("CORE", 60), ("PPT", 50)]
  const VoltageWeights: seq<(string, int)> := [("VCORE", 100), ("CORE", 80), ("CPU", 60), ("VID", 50)]
  const AnyVoltageWeights: seq<(string, int)> := [("VCORE", 100), ("CORE", 80), ("CPU", 70), ("VID", 50)]

  /** ScoreTempSensor. */
  function ScoreTemp(name: string): int { KeywordScore(ToUpper(name), TempWeights) }
  /** ScorePowerSensor. */
  function ScorePower(name: string): int { KeywordScore(ToUpper(name), PowerWeights) }
  /** ScoreAnyCpuPower. */
  function ScoreAnyPower(name: string): int { KeywordScore(ToUpper(name), AnyPowerWeights) }

  /** ScoreVoltageSensor, or ScoreAnyCpuVoltage with `broad`: VDDCR together with CPU adds 95. */
  function ScoreVoltage(name: string, broad: bool): int {
    var n := ToUpper(name);
    KeywordScore(n, if broad then AnyVoltageWeights else VoltageWeights)
      + (if Contains(n, "VDDCR") && Contains(n, "CPU") then 95 else 0)
  }

  /** Every stage value sorts equal: the order is by reading alone. */
  function NoScore(name: string): int { 0 }

  /** (int)Math.Round of the chosen sensor's reading. */
  function Rounded(s: Option<Sensor>): (t: int)
    ensures s.None? ==> t == 0
  {
    if s.Some? then RoundHalfEven(Reading(s.value)) else 0
  }

  /** A reading strictly inside (lo, hi) rounds to a whole number in [lo, hi]. */
  lemma RoundedWithin(s: Option<Sensor>, lo: int, hi: int)
    requires s.Some? ==> InRange(s.value, lo as real, hi as real)
    ensures s.Some? ==> lo <= Rounded(s) <= hi
  {
  }

  // ---- Temperature ----

  /** The plausible CPU temperatures: inside (0, 150) degrees. */
  function CpuTemperatures(cpu: seq<Sensor>): seq<Sensor> {
    Plausible(cpu, Temperature, 0.0, 150.0)
  }

  /**
   * The best-scored plausible CPU temperature, ties to the hotter one. The
   * branch that would take the hottest reading when no sensor was chosen
   * cannot be taken: a sensor is chosen whenever one is plausible.
   */
  function PrimaryTemperature(cpu: seq<Sensor>): (t: int)
    ensures 0 <= t <= 150
  {
    var valid := CpuTemperatures(cpu);
    var best := Best(valid, ScoreTemp);
    RoundedWithin(best, 0, 150);
    if best.Some? then Rounded(best)
    else if |valid| > 0 then
      assert false; 0
    else 0
  }

  /** The chosen temperature comes from a plausible CPU sensor; no out-of-range reading is ever chosen. */
  lemma PrimaryTemperatureChosen(cpu: seq<Sensor>)
    ensures PrimaryTemperature(cpu) > 0 ==>
      exists s :: s in cpu && s.kind == Temperature && InRange(s, 0.0, 150.0) && PrimaryTemperature(cpu) == Rounded(Some(s))
    ensures (forall s :: s in cpu && s.kind == Temperature ==> !InRange(s, 0.0, 150.0)) ==> PrimaryTemperature(cpu) == 0
  {
    var valid := CpuTemperatures(cpu);
    var best := Best(valid, ScoreTemp);
    if best.Some? {
      assert best.value in valid;
    }
  }

  const BoardExcluded: seq<string> := ["VRM", "PCH", "CHIPSET", "GPU", "SYSTEM", "AMBIENT"]
  const BoardIncluded: seq<string> := ["CPU", "SOCKET", "TDIE", "TCTL", "PACKAGE", "CORE"]

  /** A motherboard sensor that names the CPU and none of the other board parts. */
  predicate BoardCpuName(name: string) {
    var n := ToUpper(name);
    !ContainsAny(n, BoardExcluded) && ContainsAny(n, BoardIncluded)
  }

  /** The motherboard stage: the best plausible CPU-named board temperature; 0 without a board. */
  function BoardTemperature(board: Option<seq<Sensor>>): (t: int)
    ensures 0 <= t <= 150
    ensures board.None? ==> t == 0
  {
    if board.None? then 0
    else
      var candidates := Filter(Plausible(board.value, Temperature, 0.0, 150.0), (s: Sensor) => BoardCpuName(s.name));
      var best := Best(candidates, ScoreTemp);
      RoundedWithin(best, 0, 150);
      Rounded(best)
  }

  /**
   * A positive board temperature is the rounded reading of a plausible
   * board sensor whose name mentions the CPU and none of the excluded
   * parts; without such a sensor the stage gives 0.
   */
  lemma BoardTemperatureChosen(board: Option<seq<Sensor>>)
    ensures BoardTemperature(board) > 0 ==>
      board.Some? &&
      exists s :: s in board.value && s.kind == Temperature && InRange(s, 0.0, 150.0) && BoardCpuName(s.name) &&
        BoardTemperature(board) == Rounded(Some(s))
    ensures board.Some? && (forall s :: s in board.value && s.kind == Temperature && BoardCpuName(s.name) ==> !InRange(s, 0.0, 150.0)) ==>
      BoardTemperature(board) == 0
  {
    if board.Some? {
      var plausible := Plausible(board.value, Temperature, 0.0, 150.0);
      var candidates := Filter(plausible, (s: Sensor) => BoardCpuName(s.name));
      var best := Best(candidates, ScoreTemp);
      if best.Some? {
        assert best.value in candidates;
        var k :| 0 <= k < |candidates| && candidates[k] == best.value;
        assert best.value in plausible && BoardCpuName(best.value.name);
      }
    }
  }

  /** Tenths of a kelvin as degrees Celsius. */
  function KelvinTenthsToCelsius(raw: real): real {
    raw / 10.0 - 273.15
  }

  /** A thermal-zone reading is used when it is positive and above 0 °C. */
  predicate UsableKelvinTenths(raw: real) {
    raw > 0.0 && KelvinTenthsToCelsius(raw) > 0.0
  }

  /** Position k holds the first usable reading. */
  predicate FirstUsable(raws: seq<real>, k: int) {
    0 <= k < |raws| && UsableKelvinTenths(raws[k]) && forall j :: 0 <= j < k ==> !UsableKelvinTenths(raws[j])
  }

  /**
   * One query of TryGetCpuTemperatureFromAcpiC: the first usable reading as
   * whole degrees Celsius (which may be 0 for a reading just above 0 °C),
   * or nothing when no reading is usable.
   */
  function FirstKelvinTenths(raws: seq<real>): (t: Option<int>)
    ensures t.None? <==> forall k :: 0 <= k < |raws| ==> !UsableKelvinTenths(raws[k])
    ensures forall k :: FirstUsable(raws, k) ==> t == Some(RoundHalfEven(KelvinTenthsToCelsius(raws[k])))
    ensures t.Some? ==> t.value >= 0
    decreases |raws|
  {
    if raws == [] then None
    else if UsableKelvinTenths(raws[0]) then Some(RoundHalfEven(KelvinTenthsToCelsius(raws[0])))
    else
      var rest := FirstKelvinTenths(raws[1..]);
      assert forall k :: FirstUsable(raws, k) ==> k > 0 && FirstUsable(raws[1..], k - 1);
      assert forall k :: 0 <= k < |raws[1..]| && UsableKelvinTenths(raws[1..][k]) ==> UsableKelvinTenths(raws[k + 1]);
      rest
  }

  /**
   * TryGetCpuTemperatureFromAcpiC: the first usable thermal zone decides,
   * even when it rounds to 0; the temperature probes are read only when no
   * zone is usable; 0 when neither has a usable reading.
   */
  function AcpiTemperature(zones: seq<real>, probes: seq<real>): (t: int)
    ensures t >= 0
    ensures forall k :: FirstUsable(zones, k) ==> t == RoundHalfEven(KelvinTenthsToCelsius(zones[k]))
    ensures (forall k :: 0 <= k < |zones| ==> !UsableKelvinTenths(zones[k])) ==>
      forall k :: FirstUsable(probes, k) ==> t == RoundHalfEven(KelvinTenthsToCelsius(probes[k]))
    ensures (forall k :: 0 <= k < |zones| ==> !UsableKelvinTenths(zones[k])) ==>
      (forall k :: 0 <= k < |probes| ==> !UsableKelvinTenths(probes[k])) ==> t == 0
  {
    match FirstKelvinTenths(zones)
    case Some(z) => z
    case None =>
      match FirstKelvinTenths(probes)
      case Some(p) => p
      case None => 0
  }

  /** A first zone just above 0 °C wins with 0, so a warmer probe is never read. */
  lemma AcpiZoneRoundingToZeroWins()
    ensures AcpiTemperature([2734.0], [3000.0]) == 0
  {
    assert FirstUsable([2734.0], 0);
  }

  const CpuLikeNames: seq<string> := ["CPU", "CORE", "PACKAGE", "SOCKET", "TDIE", "TCTL"]

  /** A temperature the last-resort search considers: finite and inside (15, 150) degrees. */
  predicate ReasonableTemp(s: Sensor) {
    s.kind == Temperature && InRange(s, 15.0, 150.0)
  }

  /** A reasonable temperature whose upper-cased name is CPU-like. */
  predicate CpuLikeTemp(s: Sensor) {
    ReasonableTemp(s) && ContainsAny(ToUpper(s.name), CpuLikeNames)
  }

  /** t is the rounded reading of a sensor that no other sensor passing `p` reads hotter than. */
  ghost predicate HottestRounded(sensors: seq<Sensor>, p: Sensor -> bool, t: int) {
    exists s :: s in sensors && p(s) && t == Rounded(Some(s)) && forall o :: o in sensors && p(o) ==> Reading(o) <= Reading(s)
  }

  /** The hottest of the candidates by reading alone: every other reads no hotter. */
  lemma HottestOf(candidates: seq<Sensor>, sensors: seq<Sensor>, p: Sensor -> bool)
    requires candidates != []
    requires forall s :: s in candidates <==> s in sensors && p(s)
    ensures HottestRounded(sensors, p, Rounded(Best(candidates, NoScore)))
  {
    var b := Best(candidates, NoScore).value;
    forall o | o in sensors && p(o) ensures Reading(o) <= Reading(b) {
      assert !Outranks(SensorRank(o, NoScore), SensorRank(b, NoScore));
    }
  }

  /**
   * One hardware node of TryGetAnyReasonableTemperature: among readings in
   * (15, 150), the hottest CPU-like one; without a CPU-like reading, the
   * hottest one when it is at least 25; nothing otherwise.
   */
  function HardwareTemperature(sensors: seq<Sensor>): (t: Option<int>)
    ensures t.Some? ==> 15 <= t.value <= 150
    ensures (exists s :: s in sensors && CpuLikeTemp(s)) ==> t.Some? && HottestRounded(sensors, CpuLikeTemp, t.value)
    ensures (forall s :: s in sensors && ReasonableTemp(s) ==> !CpuLikeTemp(s)) ==>
      (t.Some? <==> exists s :: s in sensors && ReasonableTemp(s) && Reading(s) >= 25.0)
    ensures (forall s :: s in sensors && ReasonableTemp(s) ==> !CpuLikeTemp(s)) && t.Some? ==>
      HottestRounded(sensors, ReasonableTemp, t.value)
  {
    var temps := Plausible(sensors, Temperature, 15.0, 150.0);
    if temps == [] then None
    else
      var cpuLike := Filter(temps, (s: Sensor) => ContainsAny(ToUpper(s.name), CpuLikeNames));
      var cpuLikeBest := Best(cpuLike, NoScore);
      var hottest := Best(temps, NoScore);
      RoundedWithin(cpuLikeBest, 15, 150);
      RoundedWithin(hottest, 15, 150);
      HottestOf(temps, sensors, ReasonableTemp);
      if cpuLikeBest.Some? then
        HottestOf(cpuLike, sensors, CpuLikeTemp);
        Some(Rounded(cpuLikeBest))
      else if Reading(hottest.value) >= 25.0 then Some(Rounded(hottest))
      else None
  }

  /** A thermal-zone counter value that is finite and strictly inside (15, 150). */
  predicate ZoneCelsius(zone: Option<Double>) {
    zone.Some? && zone.value.Finite? && 15.0 < zone.value.value < 150.0
  }

  /**
   * The thermal-zone performance counter, read as the last resort. The
   * conversion of a Kelvin-looking value above 200 is copied from the
   * program, but it sits inside the test for a value below 150 and never
   * applies: a value inside (15, 150) is used as degrees Celsius, any other
   * gives 0.
   */
  function ThermalZoneTemperature(zone: Option<Double>): (t: int)
    ensures ZoneCelsius(zone) ==> t == RoundHalfEven(zone.value.value) && 15 <= t <= 150
    ensures !ZoneCelsius(zone) ==> t == 0
  {
    if zone.Some? && zone.value.Finite? && 0.0 < zone.value.value < 150.0 then
      var raw := zone.value.value;
      var temp := if raw > 200.0 then raw - 273.15 else raw;
      if 15.0 < temp < 150.0 then RoundHalfEven(temp) else 0
    else 0
  }

  /** Node i is the first node with an answer. */
  predicate FirstAnswerAt<T>(nodes: seq<T>, answer: T -> Option<int>, i: int) {
    0 <= i < |nodes| && answer(nodes[i]).Some? && forall j :: 0 <= j < i ==> answer(nodes[j]).None?
  }

  /**
   * The foreach with an early return: the answer of the first node that has
   * one, else the fallback, which is computed only after every node.
   */
  function FirstAnswer<T>(nodes: seq<T>, answer: T -> Option<int>, fallback: int): (t: int)
    ensures forall i :: FirstAnswerAt(nodes, answer, i) ==> t == answer(nodes[i]).value
    ensures (forall i :: 0 <= i < |nodes| ==> answer(nodes[i]).None?) ==> t == fallback
    ensures t == fallback || exists i :: 0 <= i < |nodes| && answer(nodes[i]).Some? && t == answer(nodes[i]).value
    decreases |nodes|
  {
    if nodes == [] then fallback
    else if answer(nodes[0]).Some? then
      assert forall i :: FirstAnswerAt(nodes, answer, i) ==> i == 0;
      answer(nodes[0]).value
    else
      var rest := nodes[1..];
      assert forall i :: FirstAnswerAt(nodes, answer, i) ==> i > 0 && FirstAnswerAt(rest, answer, i - 1);
      assert forall i :: 0 <= i < |rest| ==> rest[i] == nodes[i + 1];
      FirstAnswer(rest, answer, fallback)
  }

  /**
   * TryGetAnyReasonableTemperature: the first hardware node with an answer
   * decides; the thermal-zone counter is consulted only when no node has
   * one; 0 when neither does.
   */
  function AnyReasonableTemperature(hardware: seq<seq<Sensor>>, thermalZone: Option<Double>): (t: int)
    ensures t == 0 || 15 <= t <= 150
    ensures forall i :: FirstAnswerAt(hardware, HardwareTemperature, i) ==> t == HardwareTemperature(hardware[i]).value
    ensures (forall i :: 0 <= i < |hardware| ==> HardwareTemperature(hardware[i]).None?) ==>
      t == ThermalZoneTemperature(thermalZone)
  {
    FirstAnswer(hardware, HardwareTemperature, ThermalZoneTemperature(thermalZone))
  }

  /**
   * The temperature chain: CPU sensors, then the motherboard, then ACPI,
   * then any reasonable sensor; each stage is tried only while the
   * temperature is still 0.
   */
  function CpuTemperature(cpu: seq<Sensor>, board: Option<seq<Sensor>>, acpiZones: seq<real>, acpiProbes: seq<real>,
                          hardware: seq<seq<Sensor>>, thermalZone: Option<Double>): (t: int)
    ensures t >= 0
    ensures PrimaryTemperature(cpu) > 0 ==> t == PrimaryTemperature(cpu)
    ensures PrimaryTemperature(cpu) == 0 && BoardTemperature(board) > 0 ==> t == BoardTemperature(board)
    ensures PrimaryTemperature(cpu) == 0 && BoardTemperature(board) == 0 && AcpiTemperature(acpiZones, acpiProbes) > 0 ==>
      t == AcpiTemperature(acpiZones, acpiProbes)
    ensures PrimaryTemperature(cpu) == 0 && BoardTemperature(board) == 0 && AcpiTemperature(acpiZones, acpiProbes) == 0 ==>
      t == AnyReasonableTemperature(hardware, thermalZone)
    ensures t == 0 <==>
      (PrimaryTemperature(cpu) == 0 && BoardTemperature(board) == 0 &&
       AcpiTemperature(acpiZones, acpiProbes) == 0 && AnyReasonableTemperature(hardware, thermalZone) == 0)
  {
    var primary := PrimaryTemperature(cpu);
    if primary > 0 then primary
    else
      var onBoard := BoardTemperature(board);
      if onBoard > 0 then onBoard
      else
        var acpi := AcpiTemperature(acpiZones, acpiProbes);
        if acpi > 0 then acpi
        else AnyReasonableTemperature(hardware, thermalZone)
  }

  // ---- Power and voltage ----

  const PackageParts: seq<string> := ["IA", "CORE", "CORES", "UNCORE", "DRAM", "SOC", "SOCKET"]
  const BroadParts: seq<string> := ["IA", "CORE", "CORES", "UNCORE", "DRAM", "SOC", "SOCKET", "CPU", "PPT"]
  const BroadPowerNames: seq<string> := ["CPU", "PACKAGE", "SOCKET", "SOC", "PPT", "CORE"]
  const BroadVoltageNames: seq<string> := ["VCORE", "CORE", "CPU", "VDDCR", "VID"]
  const CurrentNames: seq<string> := ["CPU", "CORE", "VCORE", "IA"]

  /** Not a GPU sensor, and named after one of the given parts. */
  predicate CpuPart(s: Sensor, parts: seq<string>) {
    var n := ToUpper(s.name);
    !Contains(n, "GPU") && ContainsAny(n, parts)
  }

  /** The chosen reading, 0 when nothing was chosen. */
  function ReadingOf(s: Option<Sensor>): (w: real)
    ensures s.None? ==> w == 0.0
  {
    if s.Some? then Reading(s.value) else 0.0
  }

  /** The terms of a summed estimate: every non-GPU package-part reading, floored at 0. */
  function PowerTerms(candidates: seq<Sensor>, parts: seq<string>): (terms: seq<real>)
    ensures forall i :: 0 <= i < |terms| ==> terms[i] >= 0.0
  {
    var kept := Filter(candidates, (s: Sensor) => CpuPart(s, parts));
    seq(|kept|, i requires 0 <= i < |kept| => Max(0.0, Reading(kept[i])))
  }

  /** A summed power estimate, accepted only strictly inside (1, 500) W. */
  function SummedPower(candidates: seq<Sensor>, parts: seq<string>): (w: real)
    ensures w == 0.0 || 1.0 < w < 500.0
    ensures w > 0.0 ==> w == Sum(PowerTerms(candidates, parts))
    ensures 1.0 < Sum(PowerTerms(candidates, parts)) < 500.0 ==> w == Sum(PowerTerms(candidates, parts))
  {
    var sum := Sum(PowerTerms(candidates, parts));
    if 1.0 < sum < 500.0 then sum else 0.0
  }

  /** ScoreVoltageSensor. */
  function ScoreCpuVoltage(name: string): int { ScoreVoltage(name, false) }
  /** ScoreAnyCpuVoltage. */
  function ScoreAnyVoltage(name: string): int { ScoreVoltage(name, true) }

  /**
   * The package stage: the reading of the best-scored CPU power sensor inside
   * (0.5, 400) W, ties to the higher reading; 0 exactly when there is none.
   */
  function PackagePower(cpu: seq<Sensor>): (w: real)
    ensures w == 0.0 || 0.5 < w < 400.0
    ensures w == 0.0 <==> forall s :: s in cpu && s.kind == Power ==> !InRange(s, 0.5, 400.0)
    ensures w > 0.0 ==> exists s :: Unbeaten(s, Plausible(cpu, Power, 0.5, 400.0), ScorePower) && w == Reading(s)
  {
    var valid := Plausible(cpu, Power, 0.5, 400.0);
    var best := Best(valid, ScorePower);
    if best.Some? then PlausibleReading(best.value, cpu, Power, 0.5, 400.0); Reading(best.value)
    else 0.0
  }

  /**
   * The CPU's own power: the package stage, then the sum over the same
   * plausible sensors. The sum is copied from the program although it can
   * never be used: whenever a plausible sensor exists the package stage has
   * already found one, so the result is always the package stage's.
   */
  function CpuOwnPower(cpu: seq<Sensor>): (w: real)
    ensures w == PackagePower(cpu)
  {
    var valid := Plausible(cpu, Power, 0.5, 400.0);
    var package := PackagePower(cpu);
    if package > 0.0 then package
    else if valid != [] then SummedPower(valid, PackageParts)
    else 0.0
  }

  /**
   * The CPU's own voltage: the reading of the best-scored voltage inside
   * (0.2, 2.5) V, ties to the higher reading; 0 exactly when there is none.
   */
  function CpuVoltage(cpu: seq<Sensor>): (v: real)
    ensures v == 0.0 || 0.2 < v < 2.5
    ensures v == 0.0 <==> forall s :: s in cpu && s.kind == Voltage ==> !InRange(s, 0.2, 2.5)
    ensures v > 0.0 ==> exists s :: Unbeaten(s, Plausible(cpu, Voltage, 0.2, 2.5), ScoreCpuVoltage) && v == Reading(s)
  {
    var best := Best(Plausible(cpu, Voltage, 0.2, 2.5), ScoreCpuVoltage);
    if best.Some? then PlausibleReading(best.value, cpu, Voltage, 0.2, 2.5); Reading(best.value)
    else 0.0
  }

  /** The power sensors over all hardware that the broad stage considers: inside (0.5, 500) W and CPU-named. */
  function BroadPowers(all: seq<Sensor>): (r: seq<Sensor>)
    ensures forall s :: s in r <==> s in all && s.kind == Power && InRange(s, 0.5, 500.0) && CpuPart(s, BroadPowerNames)
  {
    Filter(Plausible(all, Power, 0.5, 500.0), (s: Sensor) => CpuPart(s, BroadPowerNames))
  }

  /**
   * The broad power stages over all hardware: the reading of the best-scored
   * CPU-named power sensor in (0.5, 500) W; without one, the summed estimate
   * over the CPU-related plausible readings.
   */
  function BroadPower(all: seq<Sensor>): (w: real)
    ensures w == 0.0 || 0.5 < w < 500.0
    ensures BroadPowers(all) != [] ==> exists s :: Unbeaten(s, BroadPowers(all), ScoreAnyPower) && w == Reading(s)
    ensures BroadPowers(all) == [] ==> w == SummedPower(Plausible(all, Power, 0.5, 500.0), BroadParts)
  {
    var valid := Plausible(all, Power, 0.5, 500.0);
    var best := Best(BroadPowers(all), ScoreAnyPower);
    if best.Some? then
      assert best.value in valid;
      PlausibleReading(best.value, all, Power, 0.5, 500.0);
      Reading(best.value)
    else SummedPower(valid, BroadParts)
  }

  /** The voltages over all hardware that the broad stage considers: inside (0.2, 2.5) V and CPU-named. */
  function BroadVoltages(all: seq<Sensor>): (r: seq<Sensor>)
    ensures forall s :: s in r <==> s in all && s.kind == Voltage && InRange(s, 0.2, 2.5) && CpuPart(s, BroadVoltageNames)
  {
    Filter(Plausible(all, Voltage, 0.2, 2.5), (s: Sensor) => CpuPart(s, BroadVoltageNames))
  }

  /**
   * The broad voltage stage: the reading of the best-scored CPU-named voltage
   * over all hardware; 0 exactly when there is none.
   */
  function BroadVoltage(all: seq<Sensor>): (v: real)
    ensures v == 0.0 || 0.2 < v < 2.5
    ensures v == 0.0 <==> BroadVoltages(all) == []
    ensures v > 0.0 ==> exists s :: Unbeaten(s, BroadVoltages(all), ScoreAnyVoltage) && v == Reading(s)
  {
    var best := Best(BroadVoltages(all), ScoreAnyVoltage);
    if best.Some? then
      assert best.value in Plausible(all, Voltage, 0.2, 2.5);
      PlausibleReading(best.value, all, Voltage, 0.2, 2.5);
      Reading(best.value)
    else 0.0
  }

  /** Position k holds the first element satisfying `p`. */
  predicate FirstAt<T>(s: seq<T>, p: T -> bool, k: int) {
    0 <= k < |s| && p(s[k]) && forall j :: 0 <= j < k ==> !p(s[j])
  }

  /** FirstOrDefault(p) as an index: none exactly when no element satisfies `p`, else the first that does. */
  lemma FirstWhereExactly<T>(s: seq<T>, p: T -> bool)
    ensures FirstWhere(s, p).None? <==> forall k :: 0 <= k < |s| ==> !p(s[k])
    ensures forall k :: FirstAt(s, p, k) <==> FirstWhere(s, p) == Some(k)
  {
    FirstWhereIsFirst(s, p);
    forall k | FirstAt(s, p, k) ensures FirstWhere(s, p) == Some(k) {
      FirstWhereAt(s, p, k);
    }
  }

  /** A current the last stage accepts: inside (1, 200) A and CPU-named. */
  predicate CpuCurrent(s: Sensor) {
    s.kind == Current && InRange(s, 1.0, 200.0) && CpuPart(s, CurrentNames)
  }

  /** Math.Clamp(volts * amps, 0, 500). */
  function Watts(volts: real, amps: real): (w: real)
    ensures 0.0 <= w <= 500.0
  {
    Clamp(volts * amps, 0.0, 500.0)
  }

  /**
   * The last stage: volts times the first accepted current, in the order the
   * sensors were collected, clamped to [0, 500] W; 0 without such a current.
   */
  function CurrentPower(all: seq<Sensor>, volts: real): (w: real)
    ensures 0.0 <= w <= 500.0
    ensures forall k :: FirstAt(all, CpuCurrent, k) ==> w == Watts(volts, Reading(all[k]))
    ensures (forall k :: 0 <= k < |all| ==> !CpuCurrent(all[k])) ==> w == 0.0
  {
    FirstWhereExactly(all, CpuCurrent);
    match FirstWhere(all, CpuCurrent)
    case None => 0.0
    case Some(k) => Watts(volts, Reading(all[k]))
  }

  /**
   * Package power and core voltage. The search over all hardware runs only
   * when one of them is still unknown, each broad stage only for the value
   * still unknown, and the volts-times-amps estimate only without a power
   * reading and with a voltage above 0.2 V.
   */
  function CpuPowerAndVoltage(cpu: seq<Sensor>, all: seq<Sensor>): (r: (real, real))
    ensures 0.0 <= r.0 <= 500.0
    ensures r.1 == 0.0 || 0.2 < r.1 < 2.5
    ensures CpuOwnPower(cpu) > 0.0 ==> r.0 == CpuOwnPower(cpu)
    ensures CpuVoltage(cpu) > 0.0 ==> r.1 == CpuVoltage(cpu)
    ensures CpuVoltage(cpu) <= 0.0 ==> r.1 == BroadVoltage(all)
    ensures CpuOwnPower(cpu) <= 0.0 && BroadPower(all) > 0.0 ==> r.0 == BroadPower(all)
    ensures CpuOwnPower(cpu) <= 0.0 && BroadPower(all) <= 0.0 ==>
      r.0 == (if r.1 > 0.2 then CurrentPower(all, r.1) else 0.0)
  {
    var p0 := CpuOwnPower(cpu);
    var v0 := CpuVoltage(cpu);
    if p0 > 0.0 && v0 > 0.0 then (p0, v0)
    else
      var p1 := if p0 > 0.0 then p0 else BroadPower(all);
      var v1 := if v0 > 0.0 then v0 else BroadVoltage(all);
      var p2 := if p1 <= 0.0 && v1 > 0.2 then CurrentPower(all, v1) else p1;
      (p2, v1)
  }

  // ---- Clock ----

  const ClockNames: seq<string> := ["EFFECTIVE", "AVERAGE", "CORE", "CPU"]

  /** The clock readings GetCpuInfo uses: finite, positive, and named as a core or average clock. */
  function ClockReadings(cpu: seq<Sensor>): seq<Sensor> {
    Filter(cpu, (s: Sensor) => s.kind == Clock && s.value.Some? && s.value.value.Finite? && s.value.value.value > 0.0
                               && ContainsAny(ToUpper(s.name), ClockNames))
  }

  /** The highest clock reading in GHz, else the performance-counter estimate when positive, else 0. */
  function ClockGhz(cpu: seq<Sensor>, counterGhz: real): (ghz: real)
    ensures ghz >= 0.0
    ensures ClockReadings(cpu) != [] ==>
      exists s :: s in ClockReadings(cpu) && ghz == Reading(s) / 1000.0
        && forall o :: o in ClockReadings(cpu) ==> Reading(o) <= Reading(s)
    ensures ClockReadings(cpu) == [] ==> ghz == Max(counterGhz, 0.0)
  {
    var best := Best(ClockReadings(cpu), NoScore);
    if best.Some? then Reading(best.value) / 1000.0
    else if counterGhz > 0.0 then counterGhz else 0.0
  }

  // ---- Core counts ----

  /** Per-processor counts of Win32_Processor; a field that fails to convert adds 0. */
  datatype ProcessorCounts = ProcessorCounts(cores: int, logical: int)

  function SumCores(wmi: seq<ProcessorCounts>): int
    decreases |wmi|
  {
    if wmi == [] then 0 else wmi[0].cores + SumCores(wmi[1..])
  }

  function SumLogical(wmi: seq<ProcessorCounts>): int
    decreases |wmi|
  {
    if wmi == [] then 0 else wmi[0].logical + SumLogical(wmi[1..])
  }

  /** The first SmallData sensor whose name contains the label, ignoring case, with a positive finite reading, rounded. */
  function CountSensor(cpu: seq<Sensor>, caption: string): (n: Option<int>)
  {
    var named := Filter(cpu, (s: Sensor) => s.kind == SmallData && ContainsIgnoreCase(s.name, caption));
    if named != [] && named[0].value.Some? && named[0].value.value.Finite? && named[0].value.value.value > 0.0
    then Some(RoundHalfEven(named[0].value.value.value))
    else None
  }

  /**
   * The counts as reported: the "Core Count" and "Thread Count" sensors, and the
   * WMI sums only while no core count was found (`wmi` is None when the query fails).
   */
  function ReportedCounts(cpu: seq<Sensor>, wmi: Option<seq<ProcessorCounts>>, processorCount: int): (c: ProcessorCounts)
  {
    var cores := CountSensor(cpu, "Core Count");
    var threads := CountSensor(cpu, "Thread Count");
    var physical := if cores.Some? then cores.value else 0;
    var logical := if threads.Some? then threads.value else processorCount;
    if physical <= 0 && wmi.Some? then
      ProcessorCounts(if SumCores(wmi.value) > 0 then SumCores(wmi.value) else physical,
                      if SumLogical(wmi.value) > 0 then SumLogical(wmi.value) else logical)
    else ProcessorCounts(physical, logical)
  }

  /**
   * The final safety fallback: without a reported core count, half the logical
   * count when it is even and at least 2, else the logical count.
   */
  function InferCores(reported: ProcessorCounts): (c: ProcessorCounts)
    ensures c.logical == reported.logical
    ensures reported.cores > 0 ==> c == reported
    ensures reported.cores <= 0 && reported.logical >= 1 ==>
      1 <= c.cores <= c.logical && c.logical % c.cores == 0 && c.logical / c.cores <= 2
    ensures reported.cores <= 0 && reported.logical >= 2 && reported.logical % 2 == 0 ==> c.cores * 2 == c.logical
  {
    if reported.cores > 0 then reported
    else if reported.logical >= 2 && reported.logical % 2 == 0 then ProcessorCounts(reported.logical / 2, reported.logical)
    else ProcessorCounts(reported.logical, reported.logical)
  }

  /** Physical cores and logical processors as GetCpuInfo reports them. */
  function CoreCounts(cpu: seq<Sensor>, wmi: Option<seq<ProcessorCounts>>, processorCount: int): (c: ProcessorCounts)
    ensures ReportedCounts(cpu, wmi, processorCount).logical >= 1 ==> c.cores >= 1
  {
    InferCores(ReportedCounts(cpu, wmi, processorCount))
  }

  // ---- Per-core order ----

  /** The longest run of digits at the front. */
  function LeadingDigits(s: string): (d: string)
    ensures |d| <= |s| && AllDigits(d) && d == s[..|d|]
    ensures |d| < |s| ==> !IsDigit(s[|d|])
    decreases |s|
  {
    if s != [] && IsDigit(s[0]) then
      var rest := LeadingDigits(s[1..]);
      assert s[1..][..|rest|] == s[1..|rest| + 1];
      [s[0]] + rest
    else []
  }

  /** A digit string is its own leading run. */
  lemma {:induction false} LeadingDigitsOfDigits(d: string)
    requires AllDigits(d)
    ensures LeadingDigits(d) == d
    decreases |d|
  {
    if d != [] {
      assert IsDigit(d[0]);
      LeadingDigitsOfDigits(d[1..]);
    }
  }

  /** The longest run of digits at the end. */
  function TrailingDigits(s: string): (d: string)
    ensures |d| <= |s| && AllDigits(d) && d == s[|s| - |d|..]
    ensures |d| < |s| ==> !IsDigit(s[|s| - |d| - 1])
    decreases |s|
  {
    if s != [] && IsDigit(s[|s| - 1]) then
      var init := s[..|s| - 1];
      var rest := TrailingDigits(init);
      assert init[|init| - |rest|..] == s[|s| - 1 - |rest|..|s| - 1];
      rest + [s[|s| - 1]]
    else []
  }

  /** int.TryParse of a digit string: its value when non-empty and inside the 32-bit range. */
  lemma ParseDigitRun(d: string)
    requires AllDigits(d)
    ensures ParseInt(d) == if d != [] && DigitsValue(d) <= IntMax then Some(DigitsValue(d)) else None
  {
    if d != [] {
      assert IsDigit(d[0]) && IsDigit(d[|d| - 1]);
      TrimOfTrimmed(d);
    }
  }

  /** The core index in a sensor name: the digits after '#', else the trailing digits, else int.MaxValue. */
  function CoreIndex(name: string): (i: int)
    ensures 0 <= i <= IntMax
  {
    var hash := IndexOfChar(name, '#');
    var afterHash := if hash >= 0 then LeadingDigits(name[hash + 1..]) else [];
    var trailing := TrailingDigits(name);
    ParseDigitRun(afterHash);
    ParseDigitRun(trailing);
    if hash >= 0 && ParseInt(afterHash).Some? then ParseInt(afterHash).value
    else if ParseInt(trailing).Some? then ParseInt(trailing).value
    else IntMax
  }

  /** A name "<prefix>#<k>" with no '#' in the prefix gets index k: the label's number round-trips. */
  lemma CoreIndexOfNumbered(prefix: string, k: nat)
    requires '#' !in prefix && k <= IntMax
    ensures CoreIndex(prefix + "#" + NatToString(k)) == k
  {
    var name := prefix + "#" + NatToString(k);
    var digits := NatToString(k);
    assert name[|prefix|] == '#';
    assert forall i :: 0 <= i < |prefix| ==> name[i] == prefix[i];
    assert IndexOfChar(name, '#') == |prefix|;
    assert name[|prefix| + 1..] == digits;
    LeadingDigitsOfDigits(digits);
    ParseDigitRun(digits);
  }

  /** The per-core load sensors: Load sensors named as a core and not as the total. */
  function CoreLoadSensors(cpu: seq<Sensor>): seq<Sensor> {
    Filter(cpu, (s: Sensor) => s.kind == Load && !ContainsIgnoreCase(s.name, "Total")
                     && (ContainsIgnoreCase(s.name, "Core") || ContainsIgnoreCase(s.name, "CPU Core")))
  }

  /** OrderBy(getIndex) is the stable descending sort on the negated index. */
  function CoreKey(s: Sensor): real { -(CoreIndex(s.name) as real) }

  /** The core load sensors in ascending core-index order, and their sanitised readings. */
  function PerCoreUsages(cpu: seq<Sensor>): (r: seq<real>)
    ensures |r| == |CoreLoadSensors(cpu)|
    ensures forall i :: 0 <= i < |r| ==> 0.0 <= r[i] <= 100.0
  {
    var ordered := SortDescending(CoreLoadSensors(cpu), CoreKey);
    seq(|ordered|, i requires 0 <= i < |ordered| =>
      SanitizePercent(if ordered[i].value.Some? then ordered[i].value.value else Finite(0.0)))
  }

  /** The order is by ascending core index and loses or adds no sensor. */
  lemma PerCoreOrder(cpu: seq<Sensor>)
    ensures var ordered := SortDescending(CoreLoadSensors(cpu), CoreKey);
      multiset(ordered) == multiset(CoreLoadSensors(cpu))
      && forall i, j :: 0 <= i < j < |ordered| ==> CoreIndex(ordered[i].name) <= CoreIndex(ordered[j].name)
  {
    var ordered := SortDescending(CoreLoadSensors(cpu), CoreKey);
    forall i, j | 0 <= i < j < |ordered| ensures CoreIndex(ordered[i].name) <= CoreIndex(ordered[j].name) {
      assert CoreKey(ordered[i]) >= CoreKey(ordered[j]);
    }
  }

  /** Sensors already in index order keep their order, so equal indices keep the sensor order. */
  lemma PerCoreOrderKeepsSorted(cpu: seq<Sensor>)
    requires forall i, j :: 0 <= i < j < |CoreLoadSensors(cpu)| ==>
      CoreIndex(CoreLoadSensors(cpu)[i].name) <= CoreIndex(CoreLoadSensors(cpu)[j].name)
    ensures SortDescending(CoreLoadSensors(cpu), CoreKey) == CoreLoadSensors(cpu)
  {
    SortDescendingOfSorted(CoreLoadSensors(cpu), CoreKey);
  }

  // ---- Total usage ----

  function Average(xs: seq<real>): (a: real)
    requires xs != []
  {
    Sum(xs) / |xs| as real
  }

  /**
   * ComputeAuthoritativeCpuUsage: the total counter when it reads a
   * non-negative number (`counter` is None without a counter or when it
   * throws); otherwise the sensor, replaced by the per-core average when it
   * is at most 0.1; always inside [0, 100].
   */
  function AuthoritativeCpuUsage(counter: Option<Double>, sensorValue: Double, perCore: seq<real>): (u: real)
    requires forall i :: 0 <= i < |perCore| ==> 0.0 <= perCore[i] <= 100.0
    ensures 0.0 <= u <= 100.0
    ensures counter.Some? && counter.value.Finite? && counter.value.value >= 0.0 ==> u == SanitizePercent(counter.value)
    ensures (counter.None? || !counter.value.Finite? || counter.value.value < 0.0) && SanitizePercent(sensorValue) > 0.1
      ==> u == SanitizePercent(sensorValue)
  {
    if counter.Some? && (SanitizePercent(counter.value) > 0.0 || counter.value == Finite(0.0)) then
      SanitizePercent(counter.value)
    else
      var raw := SanitizePercent(sensorValue);
      if raw <= 0.1 && perCore != [] then Clamp(Average(perCore), 0.0, 100.0)
      else Clamp(raw, 0.0, 100.0)
  }

  /** With no usable counter and a near-zero sensor, the per-core readings decide, and their mean is already in range. */
  lemma AuthoritativeFromCores(sensorValue: Double, perCore: seq<real>)
    requires perCore != [] && forall i :: 0 <= i < |perCore| ==> 0.0 <= perCore[i] <= 100.0
    requires SanitizePercent(sensorValue) <= 0.1
    ensures AuthoritativeCpuUsage(None, sensorValue, perCore) == Average(perCore)
  {
    SumBounds(perCore);
  }

  lemma {:induction false} SumBounds(xs: seq<real>)
    requires forall i :: 0 <= i < |xs| ==> 0.0 <= xs[i] <= 100.0
    ensures 0.0 <= Sum(xs) <= 100.0 * |xs| as real
  {
    if xs != [] {
      SumBounds(xs[1..]);
    }
  }
}
