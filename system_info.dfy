/**
 * The hardware records of Models/SystemInfoModels.cs that the view models
 * reconcile and display. A GPU or drive card is a value with an object
 * identity `id`: Equals first asks ReferenceEquals, which is modelled by
 * comparing ids.
 */
module SystemInfo {
  import opened Wrappers
  import opened Text
  import opened Numerics

  /** The Usage tolerance of both Equals. */
  const UsageTolerance: real := 0.0001

  /** A per-core tile: the view model updates Usage (and Index) in place. */
  class CpuCoreInfo {
    var index: int
    var usage: Double

    constructor (index: int, usage: Double)
      ensures this.index == index && this.usage == usage
    {
      this.index := index;
      this.usage := usage;
    }

    /** "Core " followed by Index: the label names the core it belongs to. */
    function Label(): (s: string)
      reads this
      ensures StartsWith(s, "Core ")
      ensures InInt32(index) ==> ParseInt(s[5..]) == Some(index)
    {
      var s := "Core " + IntToString(index);
      assert s[5..] == IntToString(index);
      assert InInt32(index) ==> ParseInt(s[5..]) == Some(index) by {
        if InInt32(index) { ParseIntToString(index); }
      }
      s
    }
  }

  datatype GpuInfo = GpuInfo(
    id: nat,
    name: string,
    usage: real,
    temperature: int,
    memory: string,
    dedicatedMemory: string)
  {
    /**
     * GpuInfo.Equals: the same object, or case-insensitively equal Name and
     * Memory, equal Temperature and Usage within the tolerance.
     */
    predicate Equals(other: GpuInfo) {
      id == other.id
      || (EqualsIgnoreCase(name, other.name)
          && Abs(usage - other.usage) < UsageTolerance
          && temperature == other.temperature
          && EqualsIgnoreCase(memory, other.memory))
    }

    /** GpuInfo.Equals(GpuInfo? other): false for null. */
    predicate EqualsOrNull(other: Option<GpuInfo>) {
      other.Some? && Equals(other.value)
    }
  }

  datatype StorageInfo = StorageInfo(
    id: nat,
    name: string,
    usage: real,
    space: string,
    driveType: string,
    isSystemDisk: bool)
  {
    /**
     * StorageInfo.Equals: the same object, or case-insensitively equal Name,
     * DriveType and Space, and Usage within the tolerance.
     */
    predicate Equals(other: StorageInfo) {
      id == other.id
      || (EqualsIgnoreCase(name, other.name)
          && EqualsIgnoreCase(driveType, other.driveType)
          && EqualsIgnoreCase(space, other.space)
          && Abs(usage - other.usage) < UsageTolerance)
    }

    predicate EqualsOrNull(other: Option<StorageInfo>) {
      other.Some? && Equals(other.value)
    }
  }

  /** The Equals relations as the two-argument functions the reconcile loop takes. */
  function GpuEquals(a: GpuInfo, b: GpuInfo): bool { a.Equals(b) }
  function StorageEquals(a: StorageInfo, b: StorageInfo): bool { a.Equals(b) }

  lemma GpuEqualsReflexiveSymmetric(a: GpuInfo, b: GpuInfo)
    ensures a.Equals(a)
    ensures a.Equals(b) <==> b.Equals(a)
    ensures !a.EqualsOrNull(None)
  {
    assert Abs(a.usage - b.usage) == Abs(b.usage - a.usage);
  }

  lemma StorageEqualsReflexiveSymmetric(a: StorageInfo, b: StorageInfo)
    ensures a.Equals(a)
    ensures a.Equals(b) <==> b.Equals(a)
    ensures !a.EqualsOrNull(None)
  {
    assert Abs(a.usage - b.usage) == Abs(b.usage - a.usage);
  }

  /** Two readings equal a third within the tolerance but not each other. */
  lemma GpuEqualsNotTransitive()
    ensures exists a: GpuInfo, b: GpuInfo, c: GpuInfo :: a.Equals(b) && b.Equals(c) && !a.Equals(c)
  {
    var a := GpuInfo(0, "GPU", 0.0, 50, "8 GB", "");
    var b := a.(id := 1, usage := 0.00006);
    var c := a.(id := 2, usage := 0.00012);
    assert a.Equals(b) && b.Equals(c) && !a.Equals(c);
  }

  lemma StorageEqualsNotTransitive()
    ensures exists a: StorageInfo, b: StorageInfo, c: StorageInfo :: a.Equals(b) && b.Equals(c) && !a.Equals(c)
  {
    var a := StorageInfo(0, "C", 0.0, "1", "S", true);
    var b := a.(id := 1, usage := 0.00006);
    var c := a.(id := 2, usage := 0.00012);
    assert a.Equals(b) && b.Equals(c) && !a.Equals(c);
  }

  /** RamInfo.Used and RamInfo.Total, kept for old bindings, are the constant 0. */
  function RamUsed(): (r: real)
    ensures r == 0.0
  {
    0.0
  }

  function RamTotal(): (r: real)
    ensures r == 0.0
  {
    0.0
  }

  /** CpuInfo.Speed, kept for old bindings, is the CPU name. */
  function CpuSpeed(cpuName: string): (r: string)
    ensures r == cpuName
  {
    cpuName
  }
}
