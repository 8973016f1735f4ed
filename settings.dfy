/**
 * Application settings: the change-detecting properties of the settings
 * service (persisted key/value store plus change events) and the settings
 * page view model that forwards its toggles and emulation sliders to them.
 */
module Settings {
  import opened Wrappers
  import opened Text
  import opened Numerics

  /** The memory metric enum. Like a C# enum it is backed by an int, so a
    * stored int outside {0, 1} still yields a (named-less) metric value. */
  newtype MemoryMetric = int
  const WorkingSet: MemoryMetric := 0
  const Private: MemoryMetric := 1

  /** A value held by the persisted key/value store. */
  datatype Stored = BoolStored(b: bool) | IntStored(i: int) | StringStored(s: string)

  /** One raised event of the settings service. */
  datatype SettingsEvent =
    | GroupSameProcessNamesChanged(flag: bool)
    | NormalizeProcessUsageChanged(flag: bool)
    | MemoryMetricChanged(metric: MemoryMetric)
    | DebugEmulationChanged
    | TwoColumnDrivesAtFourChanged(flag: bool)
    | CpuPerCoreViewChanged(flag: bool)
    | UpdateSettingsChanged

  const DebugGpuVariable := "BLUETASK_DEBUG_GPU_COUNT"
  const DebugDiskVariable := "BLUETASK_DEBUG_DISK_COUNT"

  /** Stored value of a bool setting, or the default when absent or of another kind. */
  function GetBool(store: map<string, Stored>, key: string, default: bool): (r: bool)
    ensures key in store && store[key].BoolStored? ==> r == store[key].b
    ensures !(key in store && store[key].BoolStored?) ==> r == default
  {
    if key in store && store[key].BoolStored? then store[key].b else default
  }

  /** Stored value of an int setting, or the default when absent or of another kind. */
  function GetInt(store: map<string, Stored>, key: string, default: int): (r: int)
    ensures key in store && store[key].IntStored? ==> r == store[key].i
    ensures !(key in store && store[key].IntStored?) ==> r == default
  {
    if key in store && store[key].IntStored? then store[key].i else default
  }

  /** Stored value of a string setting, or the default when absent or of another kind. */
  function GetString(store: map<string, Stored>, key: string, default: string): (r: string)
    ensures key in store && store[key].StringStored? ==> r == store[key].s
    ensures !(key in store && store[key].StringStored?) ==> r == default
  {
    if key in store && store[key].StringStored? then store[key].s else default
  }

  /** `int.TryParse` of an environment variable that may be unset; None leaves the count alone. */
  function EnvOverride(env: map<string, string>, name: string, current: int): (r: int)
    ensures name in env && ParseInt(env[name]).Some? ==> r == ParseInt(env[name]).value
    ensures !(name in env && ParseInt(env[name]).Some?) ==> r == current
  {
    if name in env then ParseInt(env[name]).GetOr(current) else current
  }

  /** The settings service. Each setter is a no-op when the value is unchanged;
    * otherwise it stores, persists once (an entry in `persisted`, mirrored in
    * `store`) and raises its event once. */
  class SettingsService {
    var groupSameProcessNames: bool
    var normalizeProcessUsage: bool
    var memoryMetric: MemoryMetric
    var twoColumnDrivesAtFour: bool
    var cpuPerCoreView: bool
    var debugGpuCount: int
    var debugDiskCount: int
    var updateRepoOwner: string
    var updateRepoName: string
    var updateAutoCheckOnLaunch: bool
    var updateIncludePrereleases: bool
    /** The persisted key/value store. */
    var store: map<string, Stored>
    /** Every write made to the store, in order. */
    var persisted: seq<(string, Stored)>
    /** Every event raised, in order. */
    var events: seq<SettingsEvent>

    /** The static constructor: stored values over the defaults, then the
      * parsable debug environment variables over the debug counts. */
    constructor (stored: map<string, Stored>, env: map<string, string>)
      ensures store == stored && persisted == [] && events == []
      ensures groupSameProcessNames == GetBool(stored, "GroupSameProcessNames", true)
      ensures normalizeProcessUsage == GetBool(stored, "NormalizeProcessUsage", false)
      ensures memoryMetric == GetInt(stored, "MemoryMetric", Private as int) as MemoryMetric
      ensures twoColumnDrivesAtFour == GetBool(stored, "TwoColumnDrivesAtFour", false)
      ensures cpuPerCoreView == GetBool(stored, "CpuPerCoreView", false)
      ensures debugGpuCount == EnvOverride(env, DebugGpuVariable, GetInt(stored, "DebugGpuCount", -1))
      ensures debugDiskCount == EnvOverride(env, DebugDiskVariable, GetInt(stored, "DebugDiskCount", -1))
      ensures updateRepoOwner == GetString(stored, "UpdateRepoOwner", "")
      ensures updateRepoName == GetString(stored, "UpdateRepoName", "")
      ensures updateAutoCheckOnLaunch == GetBool(stored, "UpdateAutoCheckOnLaunch", false)
      ensures updateIncludePrereleases == GetBool(stored, "UpdateIncludePrereleases", false)
    {
      store := stored;
      persisted := [];
      events := [];
      groupSameProcessNames := GetBool(stored, "GroupSameProcessNames", true);
      normalizeProcessUsage := GetBool(stored, "NormalizeProcessUsage", false);
      memoryMetric := GetInt(stored, "MemoryMetric", Private as int) as MemoryMetric;
      twoColumnDrivesAtFour := GetBool(stored, "TwoColumnDrivesAtFour", false);
      cpuPerCoreView := GetBool(stored, "CpuPerCoreView", false);
      updateRepoOwner := GetString(stored, "UpdateRepoOwner", "");
      updateRepoName := GetString(stored, "UpdateRepoName", "");
      updateAutoCheckOnLaunch := GetBool(stored, "UpdateAutoCheckOnLaunch", false);
      updateIncludePrereleases := GetBool(stored, "UpdateIncludePrereleases", false);
      var gpu := GetInt(stored, "DebugGpuCount", -1);
      var disk := GetInt(stored, "DebugDiskCount", -1);
      debugGpuCount := EnvOverride(env, DebugGpuVariable, gpu);
      debugDiskCount := EnvOverride(env, DebugDiskVariable, disk);
    }

    /** Persist one value and raise one event. */
    method Commit(key: string, value: Stored, e: SettingsEvent)
      modifies this`store, this`persisted, this`events
      ensures store == old(store)[key := value]
      ensures persisted == old(persisted) + [(key, value)]
      ensures events == old(events) + [e]
    {
      store := store[key := value];
      persisted := persisted + [(key, value)];
      events := events + [e];
    }

    method SetGroupSameProcessNames(value: bool)
      modifies this`groupSameProcessNames, this`store, this`persisted, this`events
      ensures old(groupSameProcessNames) == value ==> unchanged(this)
      ensures groupSameProcessNames == value
      ensures old(groupSameProcessNames) != value ==>
        && store == old(store)["GroupSameProcessNames" := BoolStored(value)]
        && persisted == old(persisted) + [("GroupSameProcessNames", BoolStored(value))]
        && events == old(events) + [GroupSameProcessNamesChanged(value)]
    {
      if groupSameProcessNames == value { return; }
      groupSameProcessNames := value;
      Commit("GroupSameProcessNames", BoolStored(value), GroupSameProcessNamesChanged(value));
    }

    method SetNormalizeProcessUsage(value: bool)
      modifies this`normalizeProcessUsage, this`store, this`persisted, this`events
      ensures old(normalizeProcessUsage) == value ==> unchanged(this)
      ensures normalizeProcessUsage == value
      ensures old(normalizeProcessUsage) != value ==>
        && store == old(store)["NormalizeProcessUsage" := BoolStored(value)]
        && persisted == old(persisted) + [("NormalizeProcessUsage", BoolStored(value))]
        && events == old(events) + [NormalizeProcessUsageChanged(value)]
    {
      if normalizeProcessUsage == value { return; }
      normalizeProcessUsage := value;
      Commit("NormalizeProcessUsage", BoolStored(value), NormalizeProcessUsageChanged(value));
    }

    method SetMemoryMetric(value: MemoryMetric)
      modifies this`memoryMetric, this`store, this`persisted, this`events
      ensures old(memoryMetric) == value ==> unchanged(this)
      ensures memoryMetric == value
      ensures old(memoryMetric) != value ==>
        && store == old(store)["MemoryMetric" := IntStored(value as int)]
        && persisted == old(persisted) + [("MemoryMetric", IntStored(value as int))]
        && events == old(events) + [MemoryMetricChanged(value)]
    {
      if memoryMetric == value { return; }
      memoryMetric := value;
      Commit("MemoryMetric", IntStored(value as int), MemoryMetricChanged(value));
    }

    method SetTwoColumnDrivesAtFour(value: bool)
      modifies this`twoColumnDrivesAtFour, this`store, this`persisted, this`events
      ensures old(twoColumnDrivesAtFour) == value ==> unchanged(this)
      ensures twoColumnDrivesAtFour == value
      ensures old(twoColumnDrivesAtFour) != value ==>
        && store == old(store)["TwoColumnDrivesAtFour" := BoolStored(value)]
        && persisted == old(persisted) + [("TwoColumnDrivesAtFour", BoolStored(value))]
        && events == old(events) + [TwoColumnDrivesAtFourChanged(value)]
    {
      if twoColumnDrivesAtFour == value { return; }
      twoColumnDrivesAtFour := value;
      Commit("TwoColumnDrivesAtFour", BoolStored(value), TwoColumnDrivesAtFourChanged(value));
    }

    method SetDebugGpuCount(value: int)
      modifies this`debugGpuCount, this`store, this`persisted, this`events
      ensures old(debugGpuCount) == value ==> unchanged(this)
      ensures debugGpuCount == value
      ensures old(debugGpuCount) != value ==>
        && store == old(store)["DebugGpuCount" := IntStored(value)]
        && persisted == old(persisted) + [("DebugGpuCount", IntStored(value))]
        && events == old(events) + [DebugEmulationChanged]
    {
      if debugGpuCount == value { return; }
      debugGpuCount := value;
      Commit("DebugGpuCount", IntStored(value), DebugEmulationChanged);
    }

    method SetDebugDiskCount(value: int)
      modifies this`debugDiskCount, this`store, this`persisted, this`events
      ensures old(debugDiskCount) == value ==> unchanged(this)
      ensures debugDiskCount == value
      ensures old(debugDiskCount) != value ==>
        && store == old(store)["DebugDiskCount" := IntStored(value)]
        && persisted == old(persisted) + [("DebugDiskCount", IntStored(value))]
        && events == old(events) + [DebugEmulationChanged]
    {
      if debugDiskCount == value { return; }
      debugDiskCount := value;
      Commit("DebugDiskCount", IntStored(value), DebugEmulationChanged);
    }

    method SetCpuPerCoreView(value: bool)
      modifies this`cpuPerCoreView, this`store, this`persisted, this`events
      ensures old(cpuPerCoreView) == value ==> unchanged(this)
      ensures cpuPerCoreView == value
      ensures old(cpuPerCoreView) != value ==>
        && store == old(store)["CpuPerCoreView" := BoolStored(value)]
        && persisted == old(persisted) + [("CpuPerCoreView", BoolStored(value))]
        && events == old(events) + [CpuPerCoreViewChanged(value)]
    {
      if cpuPerCoreView == value { return; }
      cpuPerCoreView := value;
      Commit("CpuPerCoreView", BoolStored(value), CpuPerCoreViewChanged(value));
    }

    /** `value` is None for a null string. An ordinal comparison with null is
      * never equal, so null always stores "" and notifies. */
    method SetUpdateRepoOwner(value: Option<string>)
      modifies this`updateRepoOwner, this`store, this`persisted, this`events
      ensures value == Some(old(updateRepoOwner)) ==> unchanged(this)
      ensures updateRepoOwner == value.GetOr("")
      ensures value != Some(old(updateRepoOwner)) ==>
        && store == old(store)["UpdateRepoOwner" := StringStored(value.GetOr(""))]
        && persisted == old(persisted) + [("UpdateRepoOwner", StringStored(value.GetOr("")))]
        && events == old(events) + [UpdateSettingsChanged]
    {
      if value == Some(updateRepoOwner) { return; }
      updateRepoOwner := value.GetOr("");
      Commit("UpdateRepoOwner", StringStored(updateRepoOwner), UpdateSettingsChanged);
    }

    method SetUpdateRepoName(value: Option<string>)
      modifies this`updateRepoName, this`store, this`persisted, this`events
      ensures value == Some(old(updateRepoName)) ==> unchanged(this)
      ensures updateRepoName == value.GetOr("")
      ensures value != Some(old(updateRepoName)) ==>
        && store == old(store)["UpdateRepoName" := StringStored(value.GetOr(""))]
        && persisted == old(persisted) + [("UpdateRepoName", StringStored(value.GetOr("")))]
        && events == old(events) + [UpdateSettingsChanged]
    {
      if value == Some(updateRepoName) { return; }
      updateRepoName := value.GetOr("");
      Commit("UpdateRepoName", StringStored(updateRepoName), UpdateSettingsChanged);
    }

    method SetUpdateAutoCheckOnLaunch(value: bool)
      modifies this`updateAutoCheckOnLaunch, this`store, this`persisted, this`events
      ensures old(updateAutoCheckOnLaunch) == value ==> unchanged(this)
      ensures updateAutoCheckOnLaunch == value
      ensures old(updateAutoCheckOnLaunch) != value ==>
        && store == old(store)["UpdateAutoCheckOnLaunch" := BoolStored(value)]
        && persisted == old(persisted) + [("UpdateAutoCheckOnLaunch", BoolStored(value))]
        && events == old(events) + [UpdateSettingsChanged]
    {
      if updateAutoCheckOnLaunch == value { return; }
      updateAutoCheckOnLaunch := value;
      Commit("UpdateAutoCheckOnLaunch", BoolStored(value), UpdateSettingsChanged);
    }

    method SetUpdateIncludePrereleases(value: bool)
      modifies this`updateIncludePrereleases, this`store, this`persisted, this`events
      ensures old(updateIncludePrereleases) == value ==> unchanged(this)
      ensures updateIncludePrereleases == value
      ensures old(updateIncludePrereleases) != value ==>
        && store == old(store)["UpdateIncludePrereleases" := BoolStored(value)]
        && persisted == old(persisted) + [("UpdateIncludePrereleases", BoolStored(value))]
        && events == old(events) + [UpdateSettingsChanged]
    {
      if updateIncludePrereleases == value { return; }
      updateIncludePrereleases := value;
      Commit("UpdateIncludePrereleases", BoolStored(value), UpdateSettingsChanged);
    }
  }

  /** The (int) cast of a double slider value: truncation toward zero. */
  function TruncateToInt(x: real): (n: int)
    ensures x >= 0.0 ==> n as real <= x < n as real + 1.0
    ensures x < 0.0 ==> n as real - 1.0 < x <= n as real
  {
    if x >= 0.0 then x.Floor else -((-x).Floor)
  }

  /** Initial slider position for a debug count: the count, or 0 when negative. */
  function SliderStart(count: int): (r: real)
    ensures r >= 0.0
    ensures count >= 0 ==> TruncateToInt(r) == count
    ensures count < 0 ==> r == 0.0
  {
    if count >= 0 then count as real else 0.0
  }

  /** The events a change-detecting setter raises: one when the value changed, none otherwise. */
  function Raised(changed: bool, e: SettingsEvent): (r: seq<SettingsEvent>)
    ensures |r| == (if changed then 1 else 0)
    ensures changed ==> r[0] == e
  {
    if changed then [e] else []
  }

  /** The settings page view model. Its generated property setters run the
    * change handler only when the value actually changes. */
  class SettingsViewModel {
    const service: SettingsService
    var groupSameProcessNames: bool
    var normalizeProcessUsage: bool
    var twoColumnDrivesAtFour: bool
    var selectedMemoryMetric: MemoryMetric
    var enableEmulation: bool
    var debugGpuCount: real
    var debugDiskCount: real

    constructor (service: SettingsService)
      ensures this.service == service
      ensures groupSameProcessNames == service.groupSameProcessNames
      ensures normalizeProcessUsage == service.normalizeProcessUsage
      ensures twoColumnDrivesAtFour == service.twoColumnDrivesAtFour
      ensures selectedMemoryMetric == service.memoryMetric
      ensures enableEmulation <==> service.debugGpuCount >= 0 || service.debugDiskCount >= 0
      ensures debugGpuCount == SliderStart(service.debugGpuCount)
      ensures debugDiskCount == SliderStart(service.debugDiskCount)
    {
      this.service := service;
      groupSameProcessNames := service.groupSameProcessNames;
      normalizeProcessUsage := service.normalizeProcessUsage;
      twoColumnDrivesAtFour := service.twoColumnDrivesAtFour;
      selectedMemoryMetric := service.memoryMetric;
      enableEmulation := service.debugGpuCount >= 0 || service.debugDiskCount >= 0;
      debugGpuCount := SliderStart(service.debugGpuCount);
      debugDiskCount := SliderStart(service.debugDiskCount);
    }

    method SetGroupSameProcessNames(value: bool)
      modifies this`groupSameProcessNames, service`groupSameProcessNames,
        service`store, service`persisted, service`events
      ensures groupSameProcessNames == value
      ensures old(groupSameProcessNames) == value ==> unchanged(service)
      ensures old(groupSameProcessNames) != value ==> service.groupSameProcessNames == value
      ensures old(groupSameProcessNames) != value ==>
        service.events == old(service.events) + Raised(old(service.groupSameProcessNames) != value, GroupSameProcessNamesChanged(value))
    {
      if groupSameProcessNames == value { return; }
      groupSameProcessNames := value;
      service.SetGroupSameProcessNames(value);
    }

    method SetNormalizeProcessUsage(value: bool)
      modifies this`normalizeProcessUsage, service`normalizeProcessUsage,
        service`store, service`persisted, service`events
      ensures normalizeProcessUsage == value
      ensures old(normalizeProcessUsage) == value ==> unchanged(service)
      ensures old(normalizeProcessUsage) != value ==> service.normalizeProcessUsage == value
      ensures old(normalizeProcessUsage) != value ==>
        service.events == old(service.events) + Raised(old(service.normalizeProcessUsage) != value, NormalizeProcessUsageChanged(value))
    {
      if normalizeProcessUsage == value { return; }
      normalizeProcessUsage := value;
      service.SetNormalizeProcessUsage(value);
    }

    method SetTwoColumnDrivesAtFour(value: bool)
      modifies this`twoColumnDrivesAtFour, service`twoColumnDrivesAtFour,
        service`store, service`persisted, service`events
      ensures twoColumnDrivesAtFour == value
      ensures old(twoColumnDrivesAtFour) == value ==> unchanged(service)
      ensures old(twoColumnDrivesAtFour) != value ==> service.twoColumnDrivesAtFour == value
      ensures old(twoColumnDrivesAtFour) != value ==>
        service.events == old(service.events) + Raised(old(service.twoColumnDrivesAtFour) != value, TwoColumnDrivesAtFourChanged(value))
    {
      if twoColumnDrivesAtFour == value { return; }
      twoColumnDrivesAtFour := value;
      service.SetTwoColumnDrivesAtFour(value);
    }

    method SetSelectedMemoryMetric(value: MemoryMetric)
      modifies this`selectedMemoryMetric, service`memoryMetric,
        service`store, service`persisted, service`events
      ensures selectedMemoryMetric == value
      ensures old(selectedMemoryMetric) == value ==> unchanged(service)
      ensures old(selectedMemoryMetric) != value ==> service.memoryMetric == value
      ensures old(selectedMemoryMetric) != value ==>
        service.events == old(service.events) + Raised(old(service.memoryMetric) != value, MemoryMetricChanged(value))
    {
      if selectedMemoryMetric == value { return; }
      selectedMemoryMetric := value;
      service.SetMemoryMetric(value);
    }

    /** Off: both counts become -1. On: a negative count takes its slider
      * value truncated to int; a count already >= 0 is left alone. */
    method SetEnableEmulation(value: bool)
      modifies this`enableEmulation, service`debugGpuCount, service`debugDiskCount,
        service`store, service`persisted, service`events
      ensures enableEmulation == value
      ensures old(enableEmulation) == value ==> unchanged(service)
      ensures old(enableEmulation) != value && !value ==>
        service.debugGpuCount == -1 && service.debugDiskCount == -1
      ensures old(enableEmulation) != value && value ==>
        && service.debugGpuCount == (if old(service.debugGpuCount) < 0 then TruncateToInt(debugGpuCount) else old(service.debugGpuCount))
        && service.debugDiskCount == (if old(service.debugDiskCount) < 0 then TruncateToInt(debugDiskCount) else old(service.debugDiskCount))
      ensures old(enableEmulation) != value && !value ==>
        service.events == old(service.events)
          + Raised(old(service.debugGpuCount) != -1, DebugEmulationChanged)
          + Raised(old(service.debugDiskCount) != -1, DebugEmulationChanged)
      ensures old(enableEmulation) != value && value ==>
        service.events == old(service.events)
          + Raised(old(service.debugGpuCount) < 0 && TruncateToInt(debugGpuCount) != old(service.debugGpuCount), DebugEmulationChanged)
          + Raised(old(service.debugDiskCount) < 0 && TruncateToInt(debugDiskCount) != old(service.debugDiskCount), DebugEmulationChanged)
    {
      if enableEmulation == value { return; }
      enableEmulation := value;
      if !value {
        service.SetDebugGpuCount(-1);
        service.SetDebugDiskCount(-1);
      } else {
        if service.debugGpuCount < 0 {
          service.SetDebugGpuCount(TruncateToInt(debugGpuCount));
        }
        if service.debugDiskCount < 0 {
          service.SetDebugDiskCount(TruncateToInt(debugDiskCount));
        }
      }
    }

    /** The slider reaches the service only while emulation is enabled. */
    method SetDebugGpuCount(value: real)
      modifies this`debugGpuCount, service`debugGpuCount,
        service`store, service`persisted, service`events
      ensures debugGpuCount == value
      ensures (old(debugGpuCount) == value || !enableEmulation) ==> unchanged(service)
      ensures old(debugGpuCount) != value && enableEmulation ==>
        service.debugGpuCount == TruncateToInt(value)
      ensures old(debugGpuCount) != value && enableEmulation ==>
        service.events == old(service.events) + Raised(old(service.debugGpuCount) != TruncateToInt(value), DebugEmulationChanged)
    {
      if debugGpuCount == value { return; }
      debugGpuCount := value;
      if enableEmulation {
        service.SetDebugGpuCount(TruncateToInt(value));
      }
    }

    method SetDebugDiskCount(value: real)
      modifies this`debugDiskCount, service`debugDiskCount,
        service`store, service`persisted, service`events
      ensures debugDiskCount == value
      ensures (old(debugDiskCount) == value || !enableEmulation) ==> unchanged(service)
      ensures old(debugDiskCount) != value && enableEmulation ==>
        service.debugDiskCount == TruncateToInt(value)
      ensures old(debugDiskCount) != value && enableEmulation ==>
        service.events == old(service.events) + Raised(old(service.debugDiskCount) != TruncateToInt(value), DebugEmulationChanged)
    {
      if debugDiskCount == value { return; }
      debugDiskCount := value;
      if enableEmulation {
        service.SetDebugDiskCount(TruncateToInt(value));
      }
    }
  }

  /** A debug-count environment variable holding the text of an int wins
    * over whatever was stored for that count. */
  lemma StartupEnvOverridesStored(stored: map<string, Stored>, env: map<string, string>, n: int)
    requires DebugGpuVariable in env && env[DebugGpuVariable] == IntToString(n)
    requires InInt32(n)
    ensures EnvOverride(env, DebugGpuVariable, GetInt(stored, "DebugGpuCount", -1)) == n
  {
    ParseIntToString(n);
  }
}
