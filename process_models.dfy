/**
 * One row of the process table (Models/ProcessModels.cs). The view model keeps
 * the same object for a process id across refreshes, so a row is a class whose
 * setters update its fields in place. Every setter follows SetProperty: it
 * does nothing when the value is unchanged, and otherwise stores it and raises
 * PropertyChanged for the property and for the derived properties that depend
 * on it; `notified` is the sequence of raised property names.
 */
module ProcessModels {
  import opened Wrappers
  import opened Text
  import opened Collections

  /** U+00D7, the multiplication sign between a group's name and its count. */
  const Times: char := '\U{00D7}'
  const Separator: string := [' ', Times, ' ']

  /**
   * The entry a row was made for: the pid map, the group map (by upper-case
   * name) or the synthetic Steam group. It names a row for the proofs only.
   */
  datatype RowKey = PidRow(pid: int) | GroupRow(name: string) | SteamGroupRow

  class ProcessModel {
    var processId: int
    var name: string
    var cpuPercent: real
    var memoryBytes: int
    var gpuPercent: real
    var isSelected: bool
    var isPinned: bool
    var pinSequence: int
    var isExpanded: bool
    var isGroup: bool
    var instanceCount: int
    var notified: seq<string>
    const children: Collection<ProcessModel>
    ghost const key: RowKey

    /** A new row: one instance, collapsed, unpinned, unselected, not a group, no children. */
    constructor (ghost key: RowKey)
      ensures processId == 0 && name == "" && cpuPercent == 0.0 && memoryBytes == 0 && gpuPercent == 0.0
      ensures !isSelected && !isPinned && pinSequence == 0 && !isExpanded && !isGroup && instanceCount == 1
      ensures notified == [] && fresh(children) && children.items == [] && children.changes == 0
      ensures this.key == key
    {
      processId := 0;
      name := "";
      cpuPercent := 0.0;
      memoryBytes := 0;
      gpuPercent := 0.0;
      isSelected := false;
      isPinned := false;
      pinSequence := 0;
      isExpanded := false;
      isGroup := false;
      instanceCount := 1;
      notified := [];
      children := new Collection();
      this.key := key;
    }

    /** IsHighlighted: the row shows the highlight overlay when it is selected or pinned. */
    predicate IsHighlighted()
      reads this
    {
      isSelected || isPinned
    }

    predicate HasChildren()
      reads this, children
    {
      |children.items| > 0
    }

    /** Name alone for a single instance; otherwise the name, the separator and the count. */
    function DisplayName(): (s: string)
      reads this
      ensures instanceCount <= 1 ==> s == name
      ensures instanceCount > 1 ==> StartsWith(s, name + Separator)
      ensures instanceCount > 1 && InInt32(instanceCount) ==> ParseInt(s[|name| + 3..]) == Some(instanceCount)
    {
      if instanceCount > 1 then
        var s := name + Separator + IntToString(instanceCount);
        assert s[..|name| + 3] == name + Separator;
        assert s[|name| + 3..] == IntToString(instanceCount);
        assert InInt32(instanceCount) ==> ParseInt(s[|name| + 3..]) == Some(instanceCount) by {
          if InInt32(instanceCount) { ParseIntToString(instanceCount); }
        }
        s
      else name
    }

    /** GpuPercentDisplayOrDash: "-" when there is no GPU use, else the percentage text. */
    function GpuPercentDisplayOrDash(): (d: GpuDisplay)
      reads this
      ensures d.Dash? <==> gpuPercent <= 0.0
      ensures d.Percent? ==> d.value == gpuPercent
    {
      if gpuPercent <= 0.0 then Dash else Percent(gpuPercent)
    }

    method SetProcessId(v: int)
      modifies this`processId, this`notified
      ensures processId == v
      ensures notified == old(notified) + (if old(processId) == v then [] else ["ProcessId"])
    {
      if processId != v {
        processId := v;
        notified := notified + ["ProcessId"];
      }
    }

    method SetName(v: string)
      modifies this`name, this`notified
      ensures name == v
      ensures notified == old(notified) + (if old(name) == v then [] else ["Name", "DisplayName"])
    {
      if name != v {
        name := v;
        notified := notified + ["Name", "DisplayName"];
      }
    }

    method SetCpuPercent(v: real)
      modifies this`cpuPercent, this`notified
      ensures cpuPercent == v
      ensures notified == old(notified) + (if old(cpuPercent) == v then [] else ["CpuPercent", "CpuPercentDisplay"])
    {
      if cpuPercent != v {
        cpuPercent := v;
        notified := notified + ["CpuPercent", "CpuPercentDisplay"];
      }
    }

    method SetMemoryBytes(v: int)
      modifies this`memoryBytes, this`notified
      ensures memoryBytes == v
      ensures notified == old(notified) + (if old(memoryBytes) == v then [] else ["MemoryBytes", "MemoryDisplay"])
    {
      if memoryBytes != v {
        memoryBytes := v;
        notified := notified + ["MemoryBytes", "MemoryDisplay"];
      }
    }

    method SetGpuPercent(v: real)
      modifies this`gpuPercent, this`notified
      ensures gpuPercent == v
      ensures notified == old(notified) +
        (if old(gpuPercent) == v then [] else ["GpuPercent", "GpuPercentDisplay", "GpuPercentDisplayOrDash"])
    {
      if gpuPercent != v {
        gpuPercent := v;
        notified := notified + ["GpuPercent", "GpuPercentDisplay", "GpuPercentDisplayOrDash"];
      }
    }

    method SetIsSelected(v: bool)
      modifies this`isSelected, this`notified
      ensures isSelected == v
      ensures notified == old(notified) + (if old(isSelected) == v then [] else ["IsSelected", "IsHighlighted"])
    {
      if isSelected != v {
        isSelected := v;
        notified := notified + ["IsSelected", "IsHighlighted"];
      }
    }

    method SetIsPinned(v: bool)
      modifies this`isPinned, this`notified
      ensures isPinned == v
      ensures notified == old(notified) + (if old(isPinned) == v then [] else ["IsPinned", "IsHighlighted"])
    {
      if isPinned != v {
        isPinned := v;
        notified := notified + ["IsPinned", "IsHighlighted"];
      }
    }

    method SetPinSequence(v: int)
      modifies this`pinSequence, this`notified
      ensures pinSequence == v
      ensures notified == old(notified) + (if old(pinSequence) == v then [] else ["PinSequence"])
    {
      if pinSequence != v {
        pinSequence := v;
        notified := notified + ["PinSequence"];
      }
    }

    method SetIsExpanded(v: bool)
      modifies this`isExpanded, this`notified
      ensures isExpanded == v
      ensures notified == old(notified) + (if old(isExpanded) == v then [] else ["IsExpanded"])
    {
      if isExpanded != v {
        isExpanded := v;
        notified := notified + ["IsExpanded"];
      }
    }

    method SetIsGroup(v: bool)
      modifies this`isGroup, this`notified
      ensures isGroup == v
      ensures notified == old(notified) + (if old(isGroup) == v then [] else ["IsGroup"])
    {
      if isGroup != v {
        isGroup := v;
        notified := notified + ["IsGroup"];
      }
    }

    method SetInstanceCount(v: int)
      modifies this`instanceCount, this`notified
      ensures instanceCount == v
      ensures notified == old(notified) + (if old(instanceCount) == v then [] else ["InstanceCount", "DisplayName"])
    {
      if instanceCount != v {
        instanceCount := v;
        notified := notified + ["InstanceCount", "DisplayName"];
      }
    }

    /** The copy loop's five assignments, each through its setter. */
    method SetRecord(pid: int, n: string, cpu: real, mem: int, gpu: real)
      modifies this`processId, this`name, this`cpuPercent, this`memoryBytes, this`gpuPercent, this`notified
      ensures processId == pid && name == n && cpuPercent == cpu && memoryBytes == mem && gpuPercent == gpu
      ensures |old(notified)| <= |notified| && notified[..|old(notified)|] == old(notified)
    {
      SetProcessId(pid);
      SetName(n);
      SetCpuPercent(cpu);
      SetMemoryBytes(mem);
      SetGpuPercent(gpu);
    }

    /** The three value assignments of AggregateProcessTree, each through its setter. */
    method SetMetrics(cpu: real, mem: int, gpu: real)
      modifies this`cpuPercent, this`memoryBytes, this`gpuPercent, this`notified
      ensures cpuPercent == cpu && memoryBytes == mem && gpuPercent == gpu
      ensures |old(notified)| <= |notified| && notified[..|old(notified)|] == old(notified)
    {
      SetCpuPercent(cpu);
      SetMemoryBytes(mem);
      SetGpuPercent(gpu);
    }

    /** The assignments that make a row a group row: name, group flag, instance count and values, each through its setter. */
    method SetGroupRow(n: string, count: int, cpu: real, mem: int, gpu: real)
      modifies this`name, this`isGroup, this`instanceCount, this`cpuPercent, this`memoryBytes, this`gpuPercent, this`notified
      ensures name == n && isGroup && instanceCount == count && cpuPercent == cpu && memoryBytes == mem && gpuPercent == gpu
      ensures |old(notified)| <= |notified| && notified[..|old(notified)|] == old(notified)
    {
      SetName(n);
      SetIsGroup(true);
      SetInstanceCount(count);
      SetCpuPercent(cpu);
      SetMemoryBytes(mem);
      SetGpuPercent(gpu);
    }
  }

  /** GpuPercentDisplayOrDash: a dash, or the percentage its ":F1" text shows. */
  datatype GpuDisplay = Dash | Percent(value: real)

  const KB: int := 1024
  const MB: int := KB * 1024
  const GB: int := MB * 1024

  /** What FormatBytes prints: a value with one decimal in a unit, or plain bytes. */
  datatype ByteDisplay = Scaled(value: real, unit: string) | Bytes(text: string)

  /**
   * FormatBytes: GB, MB or KB at the first threshold the count reaches,
   * with the count divided by that unit; under 1024 the plain count and "B".
   */
  function FormatBytes(bytes: int): (d: ByteDisplay)
    ensures bytes >= GB ==> d == Scaled(bytes as real / GB as real, "GB")
    ensures MB <= bytes < GB ==> d == Scaled(bytes as real / MB as real, "MB")
    ensures KB <= bytes < MB ==> d == Scaled(bytes as real / KB as real, "KB")
    ensures bytes < KB ==> d.Bytes? && EndsWith(d.text, " B") && (InInt32(bytes) ==> ParseInt(d.text[..|d.text| - 2]) == Some(bytes))
    ensures d.Scaled? ==> 1.0 <= d.value
    ensures d.Scaled? && d.unit != "GB" ==> d.value < 1024.0
  {
    if bytes >= GB then Scaled(bytes as real / GB as real, "GB")
    else if bytes >= MB then Scaled(bytes as real / MB as real, "MB")
    else if bytes >= KB then Scaled(bytes as real / KB as real, "KB")
    else
      var t := IntToString(bytes) + " B";
      assert t[..|t| - 2] == IntToString(bytes);
      assert InInt32(bytes) ==> ParseInt(t[..|t| - 2]) == Some(bytes) by {
        if InInt32(bytes) { ParseIntToString(bytes); }
      }
      Bytes(t)
  }

  /**
   * DisplayName as the file spells it: the separator between name and count is
   * U+00C3 U+2014 ("Ã—"), the UTF-8 bytes of the multiplication sign read as
   * another code page.
   */
  function DisplayNameAsWritten(name: string, instanceCount: int): (s: string)
    ensures instanceCount > 1 ==> s == name + [' ', '\U{00C3}', '\U{2014}', ' '] + IntToString(instanceCount)
    ensures instanceCount <= 1 ==> s == name
  {
    if instanceCount > 1 then name + [' ', '\U{00C3}', '\U{2014}', ' '] + IntToString(instanceCount) else name
  }

  /**
   * The separator as written is not the multiplication sign: for every name
   * and every count above one, the text does not start with the name and
   * " × " as DisplayName's does, and it holds no "×" unless the name does.
   */
  lemma DisplayNameAsWrittenMisencoded(name: string, instanceCount: int)
    requires instanceCount > 1
    ensures !StartsWith(DisplayNameAsWritten(name, instanceCount), name + Separator)
    ensures Times !in name ==> Times !in DisplayNameAsWritten(name, instanceCount)
  {
    var s := DisplayNameAsWritten(name, instanceCount);
    var digits := NatToString(instanceCount);
    assert s == name + [' ', '\U{00C3}', '\U{2014}', ' '] + digits;
    assert s[|name| + 1] == '\U{00C3}' != (name + Separator)[|name| + 1];
    if Times !in name {
      forall i | 0 <= i < |s| ensures s[i] != Times {
        if i >= |name| + 4 {
          assert s[i] == digits[i - |name| - 4] && IsDigit(digits[i - |name| - 4]);
        } else if i < |name| {
          assert s[i] == name[i];
        }
      }
    }
  }

}
