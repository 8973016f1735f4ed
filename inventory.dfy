/**
 * The memory and storage inventory helpers of the system monitor
 * (Services/SystemMonitorService.cs): the SMBIOS code tables, the module
 * configuration summary, the XMP/EXPO decision and the brand resolvers for
 * memory modules and drives. The WMI queries that feed them are inputs here.
 */
module Inventory {
  import opened Wrappers
  import opened Text
  import opened Numerics
  import opened Collections

  // ---- SMBIOS code tables ----

  /** MapMemoryFormFactor: the SMBIOS form-factor codes the page names, else "". */
  function MapMemoryFormFactor(code: int): (name: string)
    ensures name != "" <==> code in {8, 9, 12, 16, 17, 18}
  {
    match code
    case 8 => "DIMM"
    case 9 => "TBDIMM"
    case 12 => "SO-DIMM"
    case 16 => "RDIMM"
    case 17 => "Mini-RDIMM"
    case 18 => "UDIMM"
    case _ => ""
  }

  /** The code a form-factor name stands for: the inverse of MapMemoryFormFactor. */
  function FormFactorCode(name: string): (code: Option<int>)
    ensures code.Some? ==> MapMemoryFormFactor(code.value) == name
    ensures code.None? ==> name !in {"DIMM", "TBDIMM", "SO-DIMM", "RDIMM", "Mini-RDIMM", "UDIMM"}
  {
    if name == "DIMM" then Some(8)
    else if name == "TBDIMM" then Some(9)
    else if name == "SO-DIMM" then Some(12)
    else if name == "RDIMM" then Some(16)
    else if name == "Mini-RDIMM" then Some(17)
    else if name == "UDIMM" then Some(18)
    else None
  }

  /** No two codes share a name: every named code is recovered from its name. */
  lemma FormFactorRoundTrip(code: int)
    ensures MapMemoryFormFactor(code) != "" ==> FormFactorCode(MapMemoryFormFactor(code)) == Some(code)
  {
  }

  /** SMBIOS type 34, the one the overclock decision tests for DDR5. */
  const Ddr5Type: int := 34

  /** MapSmbiosMemoryType: the DDR generation for the SMBIOS memory-type codes, else "". */
  function MapSmbiosMemoryType(code: int): (name: string)
    ensures name != "" <==> code in {20, 21, 24, 26, 34}
    ensures name == "DDR5" <==> code == Ddr5Type
  {
    match code
    case 20 => "DDR"
    case 21 => "DDR2"
    case 24 => "DDR3"
    case 26 => "DDR4"
    case 34 => "DDR5"
    case _ => ""
  }

  /** The code a DDR generation stands for: the inverse of MapSmbiosMemoryType. */
  function SmbiosMemoryTypeCode(name: string): (code: Option<int>)
    ensures code.Some? ==> MapSmbiosMemoryType(code.value) == name
    ensures code.None? ==> name !in {"DDR", "DDR2", "DDR3", "DDR4", "DDR5"}
  {
    if name == "DDR" then Some(20)
    else if name == "DDR2" then Some(21)
    else if name == "DDR3" then Some(24)
    else if name == "DDR4" then Some(26)
    else if name == "DDR5" then Some(34)
    else None
  }

  lemma SmbiosMemoryTypeRoundTrip(code: int)
    ensures MapSmbiosMemoryType(code) != "" ==> SmbiosMemoryTypeCode(MapSmbiosMemoryType(code)) == Some(code)
  {
  }

  // ---- Module configuration summary ----

  /** A module size that is kept: finite and positive. */
  predicate UsableSize(v: Double) {
    v.Finite? && v.value > 0.0
  }

  /** The usable sizes, each rounded to whole gigabytes (Math.Round rounds half to even). */
  function RoundedSizes(sizes: seq<Double>): (r: seq<int>)
    ensures r == [] <==> forall k :: 0 <= k < |sizes| ==> !UsableSize(sizes[k])
    ensures forall k :: 0 <= k < |r| ==> r[k] >= 0
  {
    var usable := Filter(sizes, UsableSize);
    assert usable != [] ==> UsableSize(usable[0]);
    seq(|usable|, i requires 0 <= i < |usable| => RoundHalfEven(usable[i].value))
  }

  predicate AllEqual(r: seq<int>) {
    forall k :: 0 <= k < |r| ==> r[k] == r[0]
  }

  /** How a size group ranks after GroupBy: by its count, then by the size itself. */
  function GroupRank(r: seq<int>, size: int): Rank {
    Rank(multiset(r)[size] as real, size as real)
  }

  /** Math.Max(2, (int)Math.Ceiling(n * 0.5)): at least two modules and at least half of them. */
  function MajorityThreshold(n: nat): (t: nat)
    ensures t >= 2 && 2 * t >= n && (t == 2 || 2 * t <= n + 1)
  {
    var half := CeilDiv(n, 2);
    if half > 2 then half else 2
  }

  /** What the summary says, before it is printed. */
  datatype ModuleSummary = NoModules | Uniform(count: nat, size: int) | Majority(count: nat, size: int) | Mixed(count: nat)

  /**
   * The decision of SummarizeModuleConfiguration over the rounded sizes:
   * nothing, all of one size, the leading size group when it is large
   * enough, or only the number of modules.
   */
  function Summarize(r: seq<int>): (m: ModuleSummary)
    ensures m.NoModules? <==> r == []
    ensures m.Uniform? <==> r != [] && AllEqual(r)
    ensures m.Uniform? ==> m.count == |r| && m.size == r[0]
    ensures m.Majority? ==> m.size in r && m.count == multiset(r)[m.size] && m.count >= MajorityThreshold(|r|)
    ensures m.Majority? ==> forall k :: 0 <= k < |r| ==> !Outranks(GroupRank(r, r[k]), GroupRank(r, m.size))
    ensures m.Mixed? ==> m.count == |r| && forall k :: 0 <= k < |r| ==> multiset(r)[r[k]] < MajorityThreshold(|r|)
  {
    if r == [] then NoModules
    else if AllEqual(r) then Uniform(|r|, r[0])
    else
      var i := FirstHighest(r, (x: int) => GroupRank(r, x));
      var top := r[i];
      if multiset(r)[top] >= MajorityThreshold(|r|) then Majority(multiset(r)[top], top)
      else Mixed(|r|)
  }

  /** The printed summary: "NxSGB" for a uniform or majority size, "N modules" otherwise. */
  function RenderSummary(m: ModuleSummary): (s: string)
    ensures s == [] <==> m.NoModules?
    ensures m.Uniform? || m.Majority? ==> StartsWith(s, NatToString(m.count) + "x") && EndsWith(s, "GB")
    ensures m.Mixed? ==> StartsWith(s, NatToString(m.count)) && EndsWith(s, " modules")
  {
    match m
    case NoModules => ""
    case Uniform(count, size) => NatToString(count) + "x" + IntToString(size) + "GB"
    case Majority(count, size) => NatToString(count) + "x" + IntToString(size) + "GB"
    case Mixed(count) => NatToString(count) + " modules"
  }

  /** SummarizeModuleConfiguration: empty exactly when no module has a usable size. */
  function SummarizeModuleConfiguration(sizes: seq<Double>): (s: string)
    ensures s == [] <==> forall k :: 0 <= k < |sizes| ==> !UsableSize(sizes[k])
  {
    RenderSummary(Summarize(RoundedSizes(sizes)))
  }

  /** A kit of one size. */
  lemma SummarizeUniform()
    ensures Summarize([16, 16]) == Uniform(2, 16)
  {
  }

  /** A clear majority is reported with its count, hiding the other module. */
  lemma SummarizeMajority()
    ensures Summarize([32, 16, 16]) == Majority(2, 16)
  {
    var a := [32, 16, 16];
    assert !AllEqual(a) by { assert a[1] != a[0]; }
    assert multiset(a)[16] == 2 && multiset(a)[32] == 1;
    var m := Summarize(a);
    assert m.Majority? by { assert multiset(a)[a[1]] >= MajorityThreshold(3); }
    assert !Outranks(GroupRank(a, a[1]), GroupRank(a, m.size));
  }

  /** Between groups of equal count, the larger size wins. */
  lemma SummarizeTieToLarger()
    ensures Summarize([16, 16, 32, 32]) == Majority(2, 32)
  {
    var b := [16, 16, 32, 32];
    assert !AllEqual(b) by { assert b[2] != b[0]; }
    assert multiset(b)[16] == 2 && multiset(b)[32] == 2;
    var m := Summarize(b);
    assert m.Majority? by { assert multiset(b)[b[0]] >= MajorityThreshold(4); }
    assert !Outranks(GroupRank(b, b[2]), GroupRank(b, m.size));
  }

  /** Without a group of two, only the number of modules is reported. */
  lemma SummarizeMixed()
    ensures Summarize([16, 8]) == Mixed(2)
  {
    var c := [16, 8];
    assert !AllEqual(c) by { assert c[1] != c[0]; }
    assert multiset(c)[16] == 1 && multiset(c)[8] == 1;
  }

  /** Three different sizes: no group reaches two modules. */
  lemma SummarizeAllDifferent()
    ensures Summarize([8, 16, 32]) == Mixed(3)
  {
    var d := [8, 16, 32];
    assert !AllEqual(d) by { assert d[1] != d[0]; }
    assert multiset(d)[8] == 1 && multiset(d)[16] == 1 && multiset(d)[32] == 1;
  }

  // ---- XMP / EXPO ----

  /** The readings of one Win32_PhysicalMemory row; an absent value reads as 0. */
  datatype MemoryModule = MemoryModule(configuredClockSpeed: real, smbiosMemoryType: int)

  /** The first processor manufacturer that is not blank, else "". */
  function FirstNonBlank(vendors: seq<string>): (v: string)
    ensures v == "" <==> forall k :: 0 <= k < |vendors| ==> IsBlank(vendors[k])
    ensures v != "" ==> v in vendors && !IsBlank(v)
  {
    if vendors == [] then ""
    else if !IsBlank(vendors[0]) then
      vendors[0]
    else
      var v := FirstNonBlank(vendors[1..]);
      assert forall k :: 1 <= k < |vendors| ==> vendors[k] == vendors[1..][k - 1];
      v
  }

  /** The largest configured clock speed, starting from 0. */
  function MaxClockSpeed(ms: seq<MemoryModule>): (m: real)
    ensures m >= 0.0
    ensures forall k :: 0 <= k < |ms| ==> ms[k].configuredClockSpeed <= m
    ensures m == 0.0 || exists k :: 0 <= k < |ms| && ms[k].configuredClockSpeed == m
  {
    if ms == [] then 0.0
    else
      var init := ms[..|ms| - 1];
      assert forall k :: 0 <= k < |init| ==> init[k] == ms[k];
      Max(MaxClockSpeed(init), ms[|ms| - 1].configuredClockSpeed)
  }

  /** The largest SMBIOS memory type, starting from 0. */
  function MaxMemoryType(ms: seq<MemoryModule>): (m: int)
    ensures m >= 0
    ensures forall k :: 0 <= k < |ms| ==> ms[k].smbiosMemoryType <= m
    ensures m == 0 || exists k :: 0 <= k < |ms| && ms[k].smbiosMemoryType == m
  {
    if ms == [] then 0
    else
      var init := ms[..|ms| - 1];
      assert forall k :: 0 <= k < |init| ==> init[k] == ms[k];
      var last := ms[|ms| - 1].smbiosMemoryType;
      var m := MaxMemoryType(init);
      if last > m then last else m
  }

  /** The coarse stock speed of a generation: 5600 for DDR5, else 3200. */
  function BaselineSpeed(memoryType: int): real {
    if memoryType == Ddr5Type then 5600.0 else 3200.0
  }

  /**
   * The decision of GetMemoryXmpOrExpo: a configured speed at the threshold
   * (6000 for DDR5, else 3600) or more than 150 above the baseline counts as
   * an overclocking profile, named EXPO on an AMD processor and XMP
   * otherwise. Because the threshold is above baseline + 150 in both
   * generations, only the margin decides.
   */
  function OverclockProfile(cpuVendor: string, configuredMax: real, memoryType: int): (profile: string)
    ensures profile == "" || profile == "XMP" || profile == "EXPO"
    ensures profile != "" <==> configuredMax > BaselineSpeed(memoryType) + 150.0
    ensures profile == "EXPO" <==> profile != "" && Contains(ToUpper(cpuVendor), "AMD")
  {
    var isDdr5 := memoryType == Ddr5Type;
    var baseline := if isDdr5 then 5600.0 else 3200.0;
    var threshold := if isDdr5 then 6000.0 else 3600.0;
    var overclocked := configuredMax >= threshold || configuredMax > baseline + 150.0;
    if overclocked then (if Contains(ToUpper(cpuVendor), "AMD") then "EXPO" else "XMP") else ""
  }

  /** A faster configured speed never loses a profile that a slower one has. */
  lemma OverclockProfileMonotone(cpuVendor: string, slower: real, faster: real, memoryType: int)
    requires slower <= faster
    ensures OverclockProfile(cpuVendor, slower, memoryType) != "" ==>
      OverclockProfile(cpuVendor, faster, memoryType) == OverclockProfile(cpuVendor, slower, memoryType)
  {
  }

  /**
   * GetMemoryXmpOrExpo over the query results: the first non-blank processor
   * manufacturer, then the largest configured speed and memory type over
   * the modules.
   */
  method GetMemoryXmpOrExpo(vendors: seq<string>, modules: seq<MemoryModule>) returns (profile: string)
    ensures profile == OverclockProfile(FirstNonBlank(vendors), MaxClockSpeed(modules), MaxMemoryType(modules))
  {
    var cpuVendor := FirstVendor(vendors);
    var configuredMax, typeMax := ScanModules(modules);
    profile := OverclockProfile(cpuVendor, configuredMax, typeMax);
  }

  /** The processor query's loop: the first non-blank manufacturer, or "". */
  method FirstVendor(vendors: seq<string>) returns (cpuVendor: string)
    ensures cpuVendor == FirstNonBlank(vendors)
  {
    cpuVendor := "";
    var i := 0;
    while i < |vendors|
      invariant 0 <= i <= |vendors|
      invariant cpuVendor == "" && FirstNonBlank(vendors) == FirstNonBlank(vendors[i..])
    {
      if !IsBlank(vendors[i]) {
        cpuVendor := vendors[i];
        return;
      }
      assert vendors[i..] == [vendors[i]] + vendors[i + 1..];
      i := i + 1;
    }
  }

  /** The memory query's loop: the largest configured speed and memory type so far. */
  method ScanModules(modules: seq<MemoryModule>) returns (configuredMax: real, typeMax: int)
    ensures configuredMax == MaxClockSpeed(modules) && typeMax == MaxMemoryType(modules)
  {
    configuredMax, typeMax := 0.0, 0;
    var j := 0;
    while j < |modules|
      invariant 0 <= j <= |modules|
      invariant configuredMax == MaxClockSpeed(modules[..j]) && typeMax == MaxMemoryType(modules[..j])
    {
      ModuleStep(modules, j);
      configuredMax := Max(configuredMax, modules[j].configuredClockSpeed);
      if modules[j].smbiosMemoryType > typeMax {
        typeMax := modules[j].smbiosMemoryType;
      }
      j := j + 1;
    }
    assert modules[..|modules|] == modules;
  }

  /** One more module extends both maxima. */
  lemma ModuleStep(ms: seq<MemoryModule>, j: int)
    requires 0 <= j < |ms|
    ensures MaxClockSpeed(ms[..j + 1]) == Max(MaxClockSpeed(ms[..j]), ms[j].configuredClockSpeed)
    ensures var m := MaxMemoryType(ms[..j]);
      MaxMemoryType(ms[..j + 1]) == if ms[j].smbiosMemoryType > m then ms[j].smbiosMemoryType else m
  {
    assert ms[..j + 1][..j] == ms[..j];
  }

  // ---- Brand resolvers ----

  /**
   * One test of a brand resolver: the brand is returned when the model (or
   * the joined part numbers) contains one of `inModel`, the manufacturer
   * contains one of `inMaker`, or the model starts with one of
   * `modelPrefixes` and none of `exceptPrefixes`. Both texts are upper-cased
   * first.
   */
  datatype BrandRule = BrandRule(brand: string, inModel: seq<string>, inMaker: seq<string>,
                                 modelPrefixes: seq<string>, exceptPrefixes: seq<string>)

  predicate ContainsAnyOf(s: string, keys: seq<string>) {
    exists k :: 0 <= k < |keys| && Contains(s, keys[k])
  }

  predicate StartsWithAnyOf(s: string, keys: seq<string>) {
    exists k :: 0 <= k < |keys| && StartsWith(s, keys[k])
  }

  /** The rule names its brand by a keyword in either text. */
  predicate NamesBrand(rule: BrandRule, maker: string, model: string) {
    ContainsAnyOf(model, rule.inModel) || ContainsAnyOf(maker, rule.inMaker)
  }

  /** The rule's first prefix is `p` and it has no exceptions. */
  predicate RuleMatchesByPrefix(rule: BrandRule, p: string) {
    |rule.modelPrefixes| > 0 && rule.modelPrefixes[0] == p && rule.exceptPrefixes == []
  }

  predicate RuleMatches(rule: BrandRule, maker: string, model: string) {
    NamesBrand(rule, maker, model) ||
    (StartsWithAnyOf(model, rule.modelPrefixes) && !StartsWithAnyOf(model, rule.exceptPrefixes))
  }

  /** The brand of the first matching rule, if any. */
  function FirstBrand(rules: seq<BrandRule>, maker: string, model: string): (b: Option<string>)
    ensures b.Some? ==> exists i :: 0 <= i < |rules| && rules[i].brand == b.value
  {
    match FirstWhere(rules, (r: BrandRule) => RuleMatches(r, maker, model))
    case Some(i) => Some(rules[i].brand)
    case None => None
  }

  /** The first matching rule decides the brand. */
  lemma FirstBrandAt(rules: seq<BrandRule>, maker: string, model: string, i: nat)
    requires i < |rules| && RuleMatches(rules[i], maker, model)
    requires forall j :: 0 <= j < i ==> !RuleMatches(rules[j], maker, model)
    ensures FirstBrand(rules, maker, model) == Some(rules[i].brand)
  {
    FirstWhereAt(rules, (r: BrandRule) => RuleMatches(r, maker, model), i);
  }

  /** A brand that none of the rules up to a matching one carries is never the result. */
  lemma FirstBrandNotAfter(rules: seq<BrandRule>, maker: string, model: string, i: nat, brand: string)
    requires i < |rules| && RuleMatches(rules[i], maker, model)
    requires forall j :: 0 <= j <= i ==> rules[j].brand != brand
    ensures FirstBrand(rules, maker, model).Some? && FirstBrand(rules, maker, model) != Some(brand)
  {
    var p := (r: BrandRule) => RuleMatches(r, maker, model);
    FirstWhereIsFirst(rules, p);
    var f := FirstWhere(rules, p);
    assert f.Some? && f.value <= i;
  }

  lemma FirstBrandNone(rules: seq<BrandRule>, maker: string, model: string)
    requires forall j :: 0 <= j < |rules| ==> !RuleMatches(rules[j], maker, model)
    ensures FirstBrand(rules, maker, model) == None
  {
    FirstWhereIsFirst(rules, (r: BrandRule) => RuleMatches(r, maker, model));
  }

  lemma StartsWithContains(s: string, p: string)
    requires StartsWith(s, p)
    ensures Contains(s, p)
  {
    assert OccursAt(s, p, 0);
  }

  lemma StartsWithShorter(s: string, p: string, q: string)
    requires StartsWith(s, p) && |q| <= |p| && p[..|q|] == q
    ensures StartsWith(s, q)
  {
    assert s[..|q|] == s[..|p|][..|q|];
  }

  /** The drive tests of ResolveStorageBrand as written, in their order. */
  const StorageRulesAsWritten: seq<BrandRule> := [
    BrandRule("Samsung", ["SAMSUNG"], ["SAMSUNG"], [], []),
    BrandRule("Western Digital", ["WD ", "WESTERN DIGITAL"], ["WESTERN DIGITAL"], [], []),
    BrandRule("Western Digital", ["WDC"], [], [], []),
    BrandRule("Seagate", ["SEAGATE"], ["SEAGATE"], [], []),
    BrandRule("Crucial", ["CRUCIAL"], ["CRUCIAL"], ["CT"], []),
    BrandRule("Kingston", ["KINGSTON"], ["KINGSTON"], ["SA", "SNV"], []),
    BrandRule("Intel", ["INTEL"], ["INTEL"], [], []),
    BrandRule("Micron", ["MICRON"], ["MICRON"], [], []),
    BrandRule("SK hynix", ["SK HYNIX", "HYNIX"], ["HYNIX"], [], []),
    BrandRule("ADATA", ["ADATA"], ["ADATA"], [], []),
    BrandRule("SanDisk", ["SANDISK"], ["SANDISK"], [], []),
    BrandRule("Toshiba", ["TOSHIBA"], ["TOSHIBA"], [], []),
    BrandRule("HGST", ["HGST"], ["HGST"], [], [])
  ]

  /** The same tests with the Kingston "SA" prefix no longer taking SanDisk models. */
  const StorageRules: seq<BrandRule> := StorageRulesAsWritten[..5] +
    [BrandRule("Kingston", ["KINGSTON"], ["KINGSTON"], ["SA", "SNV"], ["SANDISK"])] + StorageRulesAsWritten[6..]

  /** The brand of the first matching test, else the manufacturer text, or the model when the manufacturer is blank. */
  function ResolveStorageBrandWith(rules: seq<BrandRule>, manufacturer: string, model: string): (brand: string)
    ensures brand == manufacturer || brand == model || exists i :: 0 <= i < |rules| && rules[i].brand == brand
  {
    match FirstBrand(rules, ToUpper(manufacturer), ToUpper(model))
    case Some(b) => b
    case None => if IsBlank(manufacturer) then model else manufacturer
  }

  function ResolveStorageBrandAsWritten(manufacturer: string, model: string): (brand: string)
    ensures brand == manufacturer || brand == model || exists i :: 0 <= i < |StorageRulesAsWritten| && StorageRulesAsWritten[i].brand == brand
  {
    ResolveStorageBrandWith(StorageRulesAsWritten, manufacturer, model)
  }

  /** ResolveStorageBrand with the SanDisk models kept out of the Kingston prefix test. */
  function ResolveStorageBrand(manufacturer: string, model: string): (brand: string)
    ensures brand == manufacturer || brand == model || exists i :: 0 <= i < |StorageRules| && StorageRules[i].brand == brand
  {
    ResolveStorageBrandWith(StorageRules, manufacturer, model)
  }

  /** A drive that no test recognises keeps its manufacturer text, or its model when that is blank. */
  lemma StorageBrandFallback(manufacturer: string, model: string)
    requires forall j :: 0 <= j < |StorageRules| ==> !RuleMatches(StorageRules[j], ToUpper(manufacturer), ToUpper(model))
    ensures ResolveStorageBrand(manufacturer, model) == if IsBlank(manufacturer) then model else manufacturer
  {
    FirstBrandNone(StorageRules, ToUpper(manufacturer), ToUpper(model));
  }

  lemma KingstonBeforeSanDisk()
    ensures RuleMatchesByPrefix(StorageRulesAsWritten[5], "SA")
    ensures forall j :: 0 <= j <= 5 ==> StorageRulesAsWritten[j].brand != "SanDisk"
  {
  }

  /** As written, a model that starts with SANDISK matches the Kingston "SA" prefix and never resolves to SanDisk. */
  lemma StorageSanDiskShadowed(manufacturer: string, model: string)
    requires StartsWith(ToUpper(model), "SANDISK")
    ensures ResolveStorageBrandAsWritten(manufacturer, model) != "SanDisk"
  {
    var m, mdl := ToUpper(manufacturer), ToUpper(model);
    var rules := StorageRulesAsWritten;
    StartsWithShorter(mdl, "SANDISK", "SA");
    KingstonBeforeSanDisk();
    assert StartsWith(mdl, rules[5].modelPrefixes[0]);
    FirstBrandNotAfter(rules, m, mdl, 5, "SanDisk");
  }

  /** A SanDisk model whose texts name no brand tested before SanDisk resolves to Kingston as written. */
  lemma StorageSanDiskAsKingston(manufacturer: string, model: string)
    requires StartsWith(ToUpper(model), "SANDISK")
    requires forall j :: 0 <= j < 10 ==> !NamesBrand(StorageRulesAsWritten[j], ToUpper(manufacturer), ToUpper(model))
    ensures ResolveStorageBrandAsWritten(manufacturer, model) == "Kingston"
  {
    var m, mdl := ToUpper(manufacturer), ToUpper(model);
    var rules := StorageRulesAsWritten;
    StartsWithShorter(mdl, "SANDISK", "SA");
    assert StartsWith(mdl, rules[5].modelPrefixes[0]);
    assert !StartsWith(mdl, "CT") by { assert mdl[0] == 'S'; }
    assert !StartsWithAnyOf(mdl, rules[4].modelPrefixes);
    FirstBrandAt(rules, m, mdl, 5);
  }

  /** The corrected resolver: the same SanDisk model resolves to SanDisk. */
  lemma StorageSanDiskResolved(manufacturer: string, model: string)
    requires StartsWith(ToUpper(model), "SANDISK")
    requires forall j :: 0 <= j < 10 ==> !NamesBrand(StorageRules[j], ToUpper(manufacturer), ToUpper(model))
    ensures ResolveStorageBrand(manufacturer, model) == "SanDisk"
  {
    var m, mdl := ToUpper(manufacturer), ToUpper(model);
    var rules := StorageRules;
    assert mdl[0] == 'S' && mdl[1] == 'A' && mdl[2] == 'N';
    assert !StartsWithAnyOf(mdl, rules[4].modelPrefixes) by { assert rules[4].modelPrefixes == ["CT"]; }
    assert StartsWith(mdl, rules[5].exceptPrefixes[0]);
    forall j | 0 <= j < 10 ensures !RuleMatches(rules[j], m, mdl) {
      assert j != 4 && j != 5 ==> rules[j].modelPrefixes == [];
    }
    StartsWithContains(mdl, "SANDISK");
    assert Contains(mdl, rules[10].inModel[0]);
    FirstBrandAt(rules, m, mdl, 10);
  }

  /** The placeholders the memory modules report instead of a manufacturer, upper-cased. */
  const Placeholders: seq<string> := ["UNKNOWN", "UNDEFINED", "TO BE FILLED BY O.E.M.", "MANUFACTURER", "NOT AVAILABLE", "N/A"]

  /** IsPlaceholder: blank, or one of the placeholders once trimmed, ignoring case. */
  predicate IsPlaceholder(s: string) {
    IsBlank(s) || ToUpper(Trim(s)) in Placeholders
  }

  predicate IsManufacturer(s: string) {
    !IsPlaceholder(s)
  }

  /** A manufacturer stays one once trimmed. */
  lemma TrimmedManufacturer(s: string)
    requires IsManufacturer(s)
    ensures Trim(s) != [] && IsManufacturer(Trim(s))
  {
    TrimmedText(s);
  }

  /** A text that is not blank trims to a non-blank text that trimming leaves alone. */
  lemma TrimmedText(s: string)
    requires !IsBlank(s)
    ensures Trim(s) != [] && !IsBlank(Trim(s)) && Trim(Trim(s)) == Trim(s)
  {
    TrimOfBlank(s);
    var t := Trim(s);
    TrimOfTrimmed(t);
    assert !IsWhiteSpace(t[0]);
  }

  /** The manufacturers that are not placeholders, trimmed. */
  function ValidManufacturers(manufacturers: seq<string>): (valid: seq<string>)
    ensures forall k :: 0 <= k < |valid| ==> valid[k] != [] && !IsPlaceholder(valid[k])
    ensures valid == [] <==> forall k :: 0 <= k < |manufacturers| ==> IsPlaceholder(manufacturers[k])
  {
    var kept := Filter(manufacturers, IsManufacturer);
    assert kept != [] ==> IsManufacturer(kept[0]);
    var valid := seq(|kept|, i requires 0 <= i < |kept| => Trim(kept[i]));
    forall k | 0 <= k < |valid| ensures valid[k] != [] && !IsPlaceholder(valid[k]) {
      TrimmedManufacturer(kept[k]);
    }
    valid
  }

  function LengthRank(s: string): Rank {
    Rank(|s| as real, 0.0)
  }

  /** string.Join(sep, parts). */
  function Join(parts: seq<string>, sep: string): (s: string)
    ensures parts != [] ==> StartsWith(s, parts[0])
    ensures |parts| == 1 ==> s == parts[0]
  {
    if parts == [] then ""
    else if |parts| == 1 then parts[0]
    else
      var s := parts[0] + sep + Join(parts[1..], sep);
      assert s[..|parts[0]|] == parts[0];
      s
  }

  /** The part-number tests of ResolveRamBrand as written, in their order. */
  const RamRulesAsWritten: seq<BrandRule> := [
    BrandRule("G.SKILL", ["GSKILL", "G.SKILL", "F4-", "F5-"], [], [], []),
    BrandRule("Corsair", ["CORSAIR"], [], ["CM"], []),
    BrandRule("Kingston", ["KINGSTON", "HYPERX"], [], ["KF", "KVR", "KSM"], []),
    BrandRule("Crucial", ["CRUCIAL"], [], ["CT"], []),
    BrandRule("TeamGroup", ["TEAM", "T-FORCE"], [], ["TF"], []),
    BrandRule("ADATA", ["ADATA", "XPG"], [], ["AX4U"], []),
    BrandRule("Patriot", ["PATRIOT"], [], ["PV"], []),
    BrandRule("GeIL", ["GEIL"], [], ["GL"], []),
    BrandRule("Samsung", ["SAMSUNG"], [], ["M378", "M"], []),
    BrandRule("SK hynix", ["HYNIX", "SKHYNIX"], [], ["HMA", "HMT"], []),
    BrandRule("Micron", ["MICRON"], [], ["MT"], [])
  ]

  /** The same tests with the Samsung "M" prefix no longer taking Micron "MT" part numbers. */
  const RamRules: seq<BrandRule> := RamRulesAsWritten[..8] +
    [BrandRule("Samsung", ["SAMSUNG"], [], ["M378", "M"], ["MT"])] + RamRulesAsWritten[9..]

  /** Every test names a brand. */
  predicate NamesBrands(rules: seq<BrandRule>) {
    forall i :: 0 <= i < |rules| ==> rules[i].brand != ""
  }

  lemma RamRulesNameBrands()
    ensures NamesBrands(RamRulesAsWritten) && NamesBrands(RamRules)
  {
    assert RamRules[8].brand == "Samsung";
    forall i | 0 <= i < |RamRules| ensures RamRules[i].brand != "" {
      if i != 8 {
        assert RamRules[i] == RamRulesAsWritten[i];
      }
    }
  }

  /**
   * ResolveRamBrand: the longest reported manufacturer that is not a
   * placeholder (the first of equal length), else the brand of the first
   * test the joined, upper-cased part numbers pass, else "Unknown".
   */
  function ResolveRamBrandWith(rules: seq<BrandRule>, manufacturers: seq<string>, partNumbers: seq<string>): (brand: string)
    requires NamesBrands(rules)
    ensures brand != ""
    ensures ValidManufacturers(manufacturers) != [] ==>
      (brand in ValidManufacturers(manufacturers) &&
       forall k :: 0 <= k < |ValidManufacturers(manufacturers)| ==> |ValidManufacturers(manufacturers)[k]| <= |brand|)
  {
    var valid := ValidManufacturers(manufacturers);
    if valid != [] then
      valid[FirstHighest(valid, LengthRank)]
    else
      match FirstBrand(rules, "", ToUpper(Join(partNumbers, " ")))
      case Some(b) => b
      case None => "Unknown"
  }

  function ResolveRamBrandAsWritten(manufacturers: seq<string>, partNumbers: seq<string>): (brand: string)
    ensures brand != ""
  {
    RamRulesNameBrands();
    ResolveRamBrandWith(RamRulesAsWritten, manufacturers, partNumbers)
  }

  /** ResolveRamBrand with Micron part numbers kept out of the Samsung "M" prefix test. */
  function ResolveRamBrand(manufacturers: seq<string>, partNumbers: seq<string>): (brand: string)
    ensures brand != ""
  {
    RamRulesNameBrands();
    ResolveRamBrandWith(RamRules, manufacturers, partNumbers)
  }

  /** A reported manufacturer wins over the part numbers, and is trimmed and not a placeholder. */
  lemma RamBrandFromManufacturer(manufacturers: seq<string>, partNumbers: seq<string>)
    requires exists k :: 0 <= k < |manufacturers| && !IsPlaceholder(manufacturers[k])
    ensures !IsPlaceholder(ResolveRamBrand(manufacturers, partNumbers))
    ensures ResolveRamBrand(manufacturers, partNumbers) in ValidManufacturers(manufacturers)
  {
  }

  /** As written, part numbers that start with MT pass the Samsung "M" test first and never resolve to Micron. */
  lemma RamMicronShadowed(manufacturers: seq<string>, partNumbers: seq<string>)
    requires forall k :: 0 <= k < |manufacturers| ==> IsPlaceholder(manufacturers[k])
    requires StartsWith(ToUpper(Join(partNumbers, " ")), "MT")
    ensures ResolveRamBrandAsWritten(manufacturers, partNumbers) != "Micron"
  {
    var joined := ToUpper(Join(partNumbers, " "));
    var rules := RamRulesAsWritten;
    StartsWithShorter(joined, "MT", "M");
    assert StartsWith(joined, rules[8].modelPrefixes[1]);
    assert RuleMatches(rules[8], "", joined);
    FirstBrandNotAfter(rules, "", joined, 8, "Micron");
  }

  /** The corrected resolver: MT part numbers that name no brand resolve to Micron. */
  lemma RamMicronResolved(manufacturers: seq<string>, partNumbers: seq<string>)
    requires forall k :: 0 <= k < |manufacturers| ==> IsPlaceholder(manufacturers[k])
    requires StartsWith(ToUpper(Join(partNumbers, " ")), "MT")
    requires forall j :: 0 <= j < 10 ==> !NamesBrand(RamRules[j], "", ToUpper(Join(partNumbers, " ")))
    ensures ResolveRamBrand(manufacturers, partNumbers) == "Micron"
  {
    var joined := ToUpper(Join(partNumbers, " "));
    var rules := RamRules;
    assert joined[0] == 'M' && joined[1] == 'T';
    forall j | 0 <= j < 10 ensures !RuleMatches(rules[j], "", joined) {
      if j == 8 {
        assert StartsWith(joined, rules[8].exceptPrefixes[0]);
      } else {
        forall k | 0 <= k < |rules[j].modelPrefixes| ensures !StartsWith(joined, rules[j].modelPrefixes[k]) {
          assert rules[j].modelPrefixes[k][0] != 'M' || rules[j].modelPrefixes[k][1] != 'T';
        }
      }
    }
    assert StartsWith(joined, rules[10].modelPrefixes[0]);
    FirstBrandAt(rules, "", joined, 10);
  }
}
