/**
 * The process tree of the dashboard (ViewModels/DashboardViewModel.cs,
 * UpdateProcesses and its helpers), on values. A row of the desired tree is a
 * live process, named by its pid, or the synthetic steam.exe group; the view
 * model resolves rows to its ProcessModel objects and writes the result into
 * their fields and Children collections.
 */
module DashboardTree {
  import opened Wrappers
  import opened Text
  import opened Numerics
  import opened Collections
  import opened ProcessMonitor
  import SystemInfo

  /** A row of the desired tree: the model of a live pid, or the synthetic steam.exe group. */
  datatype Node = Proc(pid: int) | SteamGroup

  /** CPU percent, memory bytes and GPU percent of a row. */
  datatype Metrics = Metrics(cpu: real, mem: int, gpu: real)

  // ---------------------------------------------------------------- records

  /** The last record of a pid: the one whose values its model holds after the copy loop. */
  function LatestIndex(items: seq<ProcessInfo>, pid: int): (r: int)
    ensures -1 <= r < |items|
    ensures r >= 0 ==> items[r].processId == pid && forall k :: r < k < |items| ==> items[k].processId != pid
    ensures r == -1 ==> forall k :: 0 <= k < |items| ==> items[k].processId != pid
    decreases |items|
  {
    if items == [] then -1
    else if items[|items| - 1].processId == pid then |items| - 1
    else LatestIndex(items[..|items| - 1], pid)
  }

  /** The pids of a sample: the keys of the model map once the refresh has pruned it. */
  function Live(items: seq<ProcessInfo>): (pids: set<int>)
    ensures forall k :: 0 <= k < |items| ==> items[k].processId in pids
    ensures forall p :: p in pids ==> LatestIndex(items, p) >= 0
  {
    set k | 0 <= k < |items| :: items[k].processId
  }

  /** No pid occurs twice in the sample. */
  predicate UniquePids(items: seq<ProcessInfo>) {
    forall i, j :: 0 <= i < j < |items| ==> items[i].processId != items[j].processId
  }

  /** The values the model of a live pid holds after the copy: CPU and GPU clamped to [0, 100]. */
  function OwnOfRecord(r: ProcessInfo): (m: Metrics)
    ensures 0.0 <= m.cpu <= 100.0 && 0.0 <= m.gpu <= 100.0 && m.mem == r.memoryBytes
    ensures 0.0 <= r.cpuPercent <= 100.0 ==> m.cpu == r.cpuPercent
    ensures 0.0 <= r.gpuPercent <= 100.0 ==> m.gpu == r.gpuPercent
  {
    Metrics(Clamp(r.cpuPercent, 0.0, 100.0), r.memoryBytes, Clamp(r.gpuPercent, 0.0, 100.0))
  }

  /** The name the model of a pid carries, "" for a pid that is not live. */
  function NameOfPid(items: seq<ProcessInfo>, pid: int): (name: string)
    ensures LatestIndex(items, pid) >= 0 ==> name == items[LatestIndex(items, pid)].name
  {
    var i := LatestIndex(items, pid);
    if i >= 0 then items[i].name else ""
  }

  // -------------------------------------------------------------- launchers

  /** The curated parents that launch programs rather than own them. */
  const LauncherNames: seq<string> := [
    "explorer.exe", "StartMenuExperienceHost.exe", "ShellExperienceHost.exe",
    "ApplicationFrameHost.exe", "sihost.exe", "winlogon.exe", "services.exe",
    "svchost.exe", "RuntimeBroker.exe", "taskhostw.exe", "taskhost.exe",
    "TextInputHost.exe", "SearchHost.exe"]

  predicate InLauncherList(name: string) {
    exists i :: 0 <= i < |LauncherNames| && EqualsIgnoreCase(name, LauncherNames[i])
  }

  /**
   * IsLauncherParentName: a non-blank name that is one of the curated
   * launchers, or ends with "Host.exe" or "Broker.exe", all ignoring case.
   */
  predicate IsLauncherParentName(name: string) {
    !IsBlank(name)
    && (InLauncherList(name) || EndsWithIgnoreCase(name, "Host.exe") || EndsWithIgnoreCase(name, "Broker.exe"))
  }

  /** Case folding keeps whether a character is white space. */
  lemma UpperKeepsWhiteSpace(c: char)
    ensures IsWhiteSpace(Upper(c)) <==> IsWhiteSpace(c)
  {
  }

  /** Whether a parent is a launcher depends only on its name ignoring case. */
  lemma LauncherNameIgnoresCase(name: string, other: string)
    requires EqualsIgnoreCase(name, other)
    ensures IsLauncherParentName(name) <==> IsLauncherParentName(other)
  {
    assert IsBlank(name) <==> IsBlank(other) by {
      forall i | 0 <= i < |name| ensures IsWhiteSpace(name[i]) <==> IsWhiteSpace(other[i]) {
        UpperKeepsWhiteSpace(name[i]);
        UpperKeepsWhiteSpace(other[i]);
        assert ToUpper(name)[i] == ToUpper(other)[i];
      }
    }
  }

  // -------------------------------------------------------------- partition

  /**
   * A record is placed under its parent when its ParentId is positive, the
   * parent pid is live and the parent's name is not a launcher's.
   */
  predicate IsChildRecord(items: seq<ProcessInfo>, r: ProcessInfo) {
    r.parentId > 0 && LatestIndex(items, r.parentId) >= 0
    && !IsLauncherParentName(NameOfPid(items, r.parentId))
  }

  /** The roots loop over the first n records: every record that is not placed under a parent, in order. */
  function RootsUpTo(items: seq<ProcessInfo>, n: nat): (roots: seq<Node>)
    requires n <= |items|
    decreases n
  {
    if n == 0 then []
    else
      var r := items[n - 1];
      RootsUpTo(items, n - 1) + (if IsChildRecord(items, r) then [] else [Proc(r.processId)])
  }

  function Roots(items: seq<ProcessInfo>): seq<Node> {
    RootsUpTo(items, |items|)
  }

  /** The desired-children dictionary: its keys in insertion order, and the list of each. */
  datatype ChildMap = ChildMap(parents: seq<Node>, kids: map<Node, seq<Node>>)

  /** Every key is listed once, and the list order names exactly the keys. */
  ghost predicate WellKeyed(c: ChildMap) {
    (forall i, j :: 0 <= i < j < |c.parents| ==> c.parents[i] != c.parents[j])
    && (forall n :: n in c.kids <==> n in c.parents)
  }

  /** TryGetValue, else a new list stored under the parent; then Add. */
  function AddChild(c: ChildMap, parent: Node, child: Node): (r: ChildMap)
    ensures WellKeyed(c) ==> WellKeyed(r)
    ensures parent in r.kids && r.kids[parent] == (if parent in c.kids then c.kids[parent] else []) + [child]
    ensures forall n :: n != parent ==> (n in r.kids <==> n in c.kids) && (n in c.kids ==> r.kids[n] == c.kids[n])
  {
    if parent in c.kids then c.(kids := c.kids[parent := c.kids[parent] + [child]])
    else ChildMap(c.parents + [parent], c.kids[parent := [child]])
  }

  /** The children loop over the first n records. */
  function ChildrenUpTo(items: seq<ProcessInfo>, n: nat): (c: ChildMap)
    requires n <= |items|
    ensures WellKeyed(c)
    decreases n
  {
    if n == 0 then ChildMap([], map[])
    else
      var r := items[n - 1];
      var c := ChildrenUpTo(items, n - 1);
      if IsChildRecord(items, r) then AddChild(c, Proc(r.parentId), Proc(r.processId)) else c
  }

  function DesiredChildren(items: seq<ProcessInfo>): (c: ChildMap)
    ensures WellKeyed(c)
  {
    ChildrenUpTo(items, |items|)
  }

  /** The records among the first n that are placed under pid q, as rows, in order. */
  function ChildRecordsUpTo(items: seq<ProcessInfo>, n: nat, q: int): (s: seq<Node>)
    requires n <= |items|
    decreases n
  {
    if n == 0 then []
    else
      var r := items[n - 1];
      ChildRecordsUpTo(items, n - 1, q) + (if IsChildRecord(items, r) && r.parentId == q then [Proc(r.processId)] else [])
  }

  /** The list stored under pid q is every record placed under q, in sample order; q has a list exactly when it has such a record. */
  lemma {:induction false} ChildrenUpToLists(items: seq<ProcessInfo>, n: nat, q: int)
    requires n <= |items|
    ensures var c := ChildrenUpTo(items, n);
      (Proc(q) in c.kids <==> ChildRecordsUpTo(items, n, q) != [])
      && (Proc(q) in c.kids ==> c.kids[Proc(q)] == ChildRecordsUpTo(items, n, q))
    decreases n
  {
    if n > 0 {
      ChildrenUpToLists(items, n - 1, q);
    }
  }

  /** Only pids are keys of the desired-children dictionary. */
  lemma {:induction false} ChildrenUpToKeys(items: seq<ProcessInfo>, n: nat)
    requires n <= |items|
    ensures SteamGroup !in ChildrenUpTo(items, n).kids
    decreases n
  {
    if n > 0 {
      ChildrenUpToKeys(items, n - 1);
    }
  }

  /** A row is a root exactly when some record of its pid is not placed under a parent. */
  lemma {:induction false} RootsUpToMembers(items: seq<ProcessInfo>, n: nat, x: Node)
    requires n <= |items|
    ensures x in RootsUpTo(items, n) <==>
      x.Proc? && exists k :: 0 <= k < n && items[k].processId == x.pid && !IsChildRecord(items, items[k])
    decreases n
  {
    if n > 0 {
      RootsUpToMembers(items, n - 1, x);
    }
  }

  /** A row is in q's list exactly when some record of its pid is placed under q. */
  lemma {:induction false} ChildRecordsMembers(items: seq<ProcessInfo>, n: nat, q: int, x: Node)
    requires n <= |items|
    ensures x in ChildRecordsUpTo(items, n, q) <==>
      x.Proc? && exists k :: 0 <= k < n && items[k].processId == x.pid && IsChildRecord(items, items[k]) && items[k].parentId == q
    decreases n
  {
    if n > 0 {
      ChildRecordsMembers(items, n - 1, q, x);
    }
  }

  /**
   * With unique pids every record lands in exactly one place: under its
   * parent when it is a child record, else among the roots, and nowhere else.
   */
  lemma PartitionIsExact(items: seq<ProcessInfo>, k: nat)
    requires UniquePids(items) && k < |items|
    ensures var r, c := items[k], DesiredChildren(items);
      && (IsChildRecord(items, r) ==>
            Proc(r.processId) !in Roots(items) && Proc(r.parentId) in c.kids && Proc(r.processId) in c.kids[Proc(r.parentId)])
      && (!IsChildRecord(items, r) ==> Proc(r.processId) in Roots(items))
      && (forall q :: Proc(q) in c.kids && Proc(r.processId) in c.kids[Proc(q)] ==> IsChildRecord(items, r) && q == r.parentId)
  {
    var r, c := items[k], DesiredChildren(items);
    if IsChildRecord(items, r) {
      ChildIsPlaced(items, k);
    } else {
      RootsUpToMembers(items, |items|, Proc(r.processId));
    }
    forall q | Proc(q) in c.kids && Proc(r.processId) in c.kids[Proc(q)] ensures IsChildRecord(items, r) && q == r.parentId {
      OnlyUnderParent(items, k, q);
    }
  }

  /** A child record's row is in its parent's list and not among the roots. */
  lemma ChildIsPlaced(items: seq<ProcessInfo>, k: nat)
    requires UniquePids(items) && k < |items| && IsChildRecord(items, items[k])
    ensures var r, c := items[k], DesiredChildren(items);
      Proc(r.processId) !in Roots(items) && Proc(r.parentId) in c.kids && Proc(r.processId) in c.kids[Proc(r.parentId)]
  {
    var r := items[k];
    var x := Proc(r.processId);
    RootsUpToMembers(items, |items|, x);
    ChildRecordsMembers(items, |items|, r.parentId, x);
    ChildrenUpToLists(items, |items|, r.parentId);
  }

  /** A record's row is listed under no pid but its parent's. */
  lemma OnlyUnderParent(items: seq<ProcessInfo>, k: nat, q: int)
    requires UniquePids(items) && k < |items|
    requires var c := DesiredChildren(items); Proc(q) in c.kids && Proc(items[k].processId) in c.kids[Proc(q)]
    ensures IsChildRecord(items, items[k]) && q == items[k].parentId
  {
    var x := Proc(items[k].processId);
    ChildrenUpToLists(items, |items|, q);
    ChildRecordsMembers(items, |items|, q, x);
  }

  // ------------------------------------------------------------ steam merge

  predicate IsSteamName(name: string) { EqualsIgnoreCase(name, "steam.exe") }

  predicate IsHelperName(name: string) { EqualsIgnoreCase(name, "steamwebhelper.exe") }

  /** No name is both: the two differ in length, and case folding keeps lengths. */
  lemma HelperIsNotSteam(name: string)
    requires IsHelperName(name)
    ensures !IsSteamName(name)
  {
    assert |ToUpper("steamwebhelper.exe")| == 18;
    assert |ToUpper("steam.exe")| == 9;
  }

  /** The Name of a row: the model's name for a pid, "steam.exe" for the synthetic group. */
  function NodeName(items: seq<ProcessInfo>, n: Node): (name: string)
    ensures n.Proc? ==> name == NameOfPid(items, n.pid)
  {
    if n.Proc? then NameOfPid(items, n.pid) else "steam.exe"
  }

  /** _modelsByPid.Values in the dictionary's enumeration order, given as the order of its keys. */
  function PidNodes(order: seq<int>): (ns: seq<Node>)
    ensures |ns| == |order| && forall i :: 0 <= i < |order| ==> ns[i] == Proc(order[i])
  {
    seq(|order|, i requires 0 <= i < |order| => Proc(order[i]))
  }

  /** The synthetic group made when helpers run without steam.exe: its instance count and own values. */
  datatype SteamRow = SteamRow(count: nat, own: Metrics)

  /** The roots, the desired-children dictionary and the synthetic group, if one was made. */
  datatype Plan = Plan(roots: seq<Node>, children: ChildMap, steam: Option<SteamRow>)

  /** Position k of ns holds the first row named steam.exe, ignoring case. */
  predicate FirstSteamAt(items: seq<ProcessInfo>, ns: seq<Node>, k: int) {
    0 <= k < |ns| && IsSteamName(NodeName(items, ns[k]))
    && forall j :: 0 <= j < k ==> !IsSteamName(NodeName(items, ns[j]))
  }

  /** The anchor: the first root named steam.exe, else the first model so named, ignoring case. */
  function Anchor(items: seq<ProcessInfo>, roots: seq<Node>, order: seq<int>): (a: Option<Node>)
    ensures a.Some? ==> IsSteamName(NodeName(items, a.value))
    ensures a.Some? <==>
      (exists k :: 0 <= k < |roots| && IsSteamName(NodeName(items, roots[k])))
      || (exists k :: 0 <= k < |order| && IsSteamName(NameOfPid(items, order[k])))
    ensures forall k :: FirstSteamAt(items, roots, k) ==> a == Some(roots[k])
    ensures (forall k :: 0 <= k < |roots| ==> !IsSteamName(NodeName(items, roots[k]))) ==>
      forall k :: FirstSteamAt(items, PidNodes(order), k) ==> a == Some(Proc(order[k]))
  {
    var isSteam := (n: Node) => IsSteamName(NodeName(items, n));
    FirstWhereIsFirst(roots, isSteam);
    var nodes := PidNodes(order);
    FirstWhereIsFirst(nodes, isSteam);
    assert forall k :: 0 <= k < |order| ==> NodeName(items, nodes[k]) == NameOfPid(items, order[k]);
    assert forall k :: FirstSteamAt(items, roots, k) ==> FirstWhere(roots, isSteam) == Some(k) by {
      forall k | FirstSteamAt(items, roots, k) ensures FirstWhere(roots, isSteam) == Some(k) {
        FirstWhereAt(roots, isSteam, k);
      }
    }
    assert forall k :: FirstSteamAt(items, nodes, k) ==> FirstWhere(nodes, isSteam) == Some(k) by {
      forall k | FirstSteamAt(items, nodes, k) ensures FirstWhere(nodes, isSteam) == Some(k) {
        FirstWhereAt(nodes, isSteam, k);
      }
    }
    match FirstWhere(roots, isSteam)
    case Some(k) => Some(roots[k])
    case None =>
      match FirstWhere(nodes, isSteam)
      case Some(k) => Some(nodes[k])
      case None => None
  }

  /** ContainsRecursive(a, h): h is in the list of a, or below one of its members, within `fuel` levels. */
  predicate Descends(kids: map<Node, seq<Node>>, a: Node, h: Node, fuel: nat)
    decreases fuel
  {
    a in kids && (h in kids[a] || (fuel > 0 && exists i :: 0 <= i < |kids[a]| && Descends(kids, kids[a][i], h, fuel - 1)))
  }

  /** List<T>.Remove: the first occurrence of x taken out, nothing when there is none. */
  function RemoveFirst<T(==)>(s: seq<T>, x: T): (r: seq<T>)
    ensures x !in s ==> r == s
    ensures x in s ==> |r| == |s| - 1
    ensures multiset(r) == multiset(s) - multiset{x}
    decreases |s|
  {
    if s == [] then []
    else if s[0] == x then
      assert s == [s[0]] + s[1..];
      s[1..]
    else
      assert s == [s[0]] + s[1..];
      [s[0]] + RemoveFirst(s[1..], x)
  }

  /** The first key, in insertion order, whose list holds h. */
  function ListingParent(c: ChildMap, h: Node): (q: Option<Node>)
    ensures q.Some? ==> q.value in c.parents && q.value in c.kids && h in c.kids[q.value]
  {
    var holds := (q: Node) => q in c.kids && h in c.kids[q];
    FirstWhereIsFirst(c.parents, holds);
    match FirstWhere(c.parents, holds)
    case Some(k) => Some(c.parents[k])
    case None => None
  }

  /**
   * One pass of the helper loop: a helper already below the anchor is left
   * where it is; otherwise it is taken out of the list that holds it and out
   * of the roots, and appended to the anchor's list unless that list already
   * holds it.
   */
  function MergeHelper(p: Plan, a: Node, h: Node): (r: Plan)
    ensures r.steam == p.steam
    ensures !Descends(p.children.kids, a, h, |p.children.parents|) ==> a in r.children.kids && h in r.children.kids[a]
    ensures WellKeyed(p.children) ==> WellKeyed(r.children)
  {
    var c := p.children;
    if Descends(c.kids, a, h, |c.parents|) then p
    else
      var c1 := Unlist(c, h);
      var c2 := if a in c1.kids && h in c1.kids[a] then c1 else AddChild(c1, a, h);
      p.(roots := RemoveFirst(p.roots, h), children := c2)
  }

  /** h taken out of the list that holds it, if any; every other list and the key order stay. */
  function Unlist(c: ChildMap, h: Node): (r: ChildMap)
    ensures r.parents == c.parents && r.kids.Keys == c.kids.Keys
    ensures forall n :: n in c.kids && ListingParent(c, h) != Some(n) ==> r.kids[n] == c.kids[n]
    ensures WellKeyed(c) ==> WellKeyed(r)
  {
    match ListingParent(c, h)
    case Some(q) => c.(kids := c.kids[q := RemoveFirst(c.kids[q], h)])
    case None => c
  }

  /** The helper loop over every helper in order. */
  function MergeHelpers(p: Plan, a: Node, helpers: seq<Node>): (r: Plan)
    ensures r.steam == p.steam
    ensures WellKeyed(p.children) ==> WellKeyed(r.children)
    decreases |helpers|
  {
    if helpers == [] then p else MergeHelpers(MergeHelper(p, a, helpers[0]), a, helpers[1..])
  }

  /** List<T>.Remove for each of xs in turn. */
  function RemoveEach<T(==)>(s: seq<T>, xs: seq<T>): (r: seq<T>)
    ensures multiset(r) == multiset(s) - multiset(xs)
    decreases |xs|
  {
    if xs == [] then s
    else
      assert xs == [xs[0]] + xs[1..];
      RemoveEach(RemoveFirst(s, xs[0]), xs[1..])
  }

  function Zero(): Metrics { Metrics(0.0, 0, 0.0) }

  function Plus(a: Metrics, b: Metrics): Metrics { Metrics(a.cpu + b.cpu, a.mem + b.mem, a.gpu + b.gpu) }

  /** The values a pid's model holds before aggregation; nothing for a pid that is not live. */
  function OwnOfPid(items: seq<ProcessInfo>, pid: int): (m: Metrics)
    ensures 0.0 <= m.cpu <= 100.0 && 0.0 <= m.gpu <= 100.0
  {
    var i := LatestIndex(items, pid);
    if i >= 0 then OwnOfRecord(items[i]) else Zero()
  }

  /** The summed own values of some pid rows, unclamped. */
  function SumOwn(items: seq<ProcessInfo>, ns: seq<Node>): (m: Metrics)
    ensures m.cpu >= 0.0 && m.gpu >= 0.0
    decreases |ns|
  {
    if ns == [] then Zero()
    else Plus(if ns[0].Proc? then OwnOfPid(items, ns[0].pid) else Zero(), SumOwn(items, ns[1..]))
  }

  /** The synthetic group's own values as the source sets them: the clamped sums of the helpers' values. */
  function SyntheticOwnAsWritten(items: seq<ProcessInfo>, helperRoots: seq<Node>): (m: Metrics)
    ensures 0.0 <= m.cpu <= 100.0 && 0.0 <= m.gpu <= 100.0
  {
    var s := SumOwn(items, helperRoots);
    Metrics(Clamp(s.cpu, 0.0, 100.0), s.mem, Clamp(s.gpu, 0.0, 100.0))
  }

  /**
   * Helpers without steam.exe: the helper roots go, in order, under a new
   * synthetic group appended to the roots. `own` is the group's own values.
   */
  function GroupHelperRoots(p: Plan, helperRoots: seq<Node>, own: Metrics): (r: Plan)
    requires helperRoots != []
    ensures r.roots == RemoveEach(p.roots, helperRoots) + [SteamGroup]
    ensures SteamGroup in r.children.kids && r.children.kids[SteamGroup] == helperRoots
    ensures r.steam == Some(SteamRow(|helperRoots|, own))
    ensures WellKeyed(p.children) && SteamGroup !in p.children.kids ==> WellKeyed(r.children)
  {
    var c := p.children;
    Plan(RemoveEach(p.roots, helperRoots) + [SteamGroup],
      ChildMap(c.parents + [SteamGroup], c.kids[SteamGroup := helperRoots]),
      Some(SteamRow(|helperRoots|, own)))
  }

  /** The helper test: a row named steamwebhelper.exe, ignoring case. */
  function HelperTest(items: seq<ProcessInfo>): Node -> bool {
    (n: Node) => IsHelperName(NodeName(items, n))
  }

  /** The helpers the anchor gathers: every other model named steamwebhelper.exe. */
  function OtherHelperTest(items: seq<ProcessInfo>, a: Node): Node -> bool {
    (n: Node) => n != a && IsHelperName(NodeName(items, n))
  }

  /**
   * The steam merge. With an anchor, every other model named
   * steamwebhelper.exe, in model order, goes through the helper loop; without
   * one, the helper roots are gathered under a synthetic group whose own
   * values are left at zero, so that aggregation counts the helpers once.
   */
  function MergeSteam(items: seq<ProcessInfo>, p: Plan, order: seq<int>): (r: Plan)
  {
    match Anchor(items, p.roots, order)
    case Some(a) => MergeHelpers(p, a, Filter(PidNodes(order), OtherHelperTest(items, a)))
    case None =>
      var helperRoots := Filter(p.roots, HelperTest(items));
      if helperRoots == [] then p else GroupHelperRoots(p, helperRoots, Zero())
  }

  /** The merge as written: the synthetic group also carries the helpers' summed values as its own. */
  function MergeSteamAsWritten(items: seq<ProcessInfo>, p: Plan, order: seq<int>): (r: Plan)
  {
    match Anchor(items, p.roots, order)
    case Some(a) => MergeHelpers(p, a, Filter(PidNodes(order), OtherHelperTest(items, a)))
    case None =>
      var helperRoots := Filter(p.roots, HelperTest(items));
      if helperRoots == [] then p else GroupHelperRoots(p, helperRoots, SyntheticOwnAsWritten(items, helperRoots))
  }

  /** The desired tree of a sample: the partition, then the steam merge. */
  function BuildPlan(items: seq<ProcessInfo>, order: seq<int>): Plan {
    MergeSteam(items, Plan(Roots(items), DesiredChildren(items), None), order)
  }

  function BuildPlanAsWritten(items: seq<ProcessInfo>, order: seq<int>): Plan {
    MergeSteamAsWritten(items, Plan(Roots(items), DesiredChildren(items), None), order)
  }

  /** The anchor's own list only grows in the helper loop: a helper listed by the anchor counts as below it. */
  lemma MergeHelperKeepsAnchorList(p: Plan, a: Node, h: Node)
    ensures var r := MergeHelper(p, a, h);
      a in p.children.kids ==> a in r.children.kids && forall x :: x in p.children.kids[a] ==> x in r.children.kids[a]
  {
    var c := p.children;
    if a in c.kids && !Descends(c.kids, a, h, |c.parents|) {
      assert h !in c.kids[a];
      assert ListingParent(c, h) != Some(a);
      var c1 := Unlist(c, h);
      assert c1.kids[a] == c.kids[a];
    }
  }

  lemma {:induction false} MergeHelpersSnoc(p: Plan, a: Node, xs: seq<Node>, x: Node)
    ensures MergeHelpers(p, a, xs + [x]) == MergeHelper(MergeHelpers(p, a, xs), a, x)
    decreases |xs|
  {
    if xs == [] {
      assert ([x])[1..] == [];
    } else {
      assert (xs + [x])[1..] == xs[1..] + [x];
      MergeHelpersSnoc(MergeHelper(p, a, xs[0]), a, xs[1..], x);
    }
  }

  /** When the helper loop reaches helper k, it is already below the anchor, or it ends in the anchor's list. */
  ghost predicate GatheredAt(p: Plan, a: Node, helpers: seq<Node>, k: int, r: Plan)
    requires 0 <= k < |helpers|
  {
    var q := MergeHelpers(p, a, helpers[..k]);
    Descends(q.children.kids, a, helpers[k], |q.children.parents|)
    || (a in r.children.kids && helpers[k] in r.children.kids[a])
  }

  /** A later pass keeps what an earlier one gathered. */
  lemma GatheredStays(p: Plan, a: Node, init: seq<Node>, x: Node, k: int)
    requires 0 <= k < |init|
    requires GatheredAt(p, a, init, k, MergeHelpers(p, a, init))
    ensures GatheredAt(p, a, init + [x], k, MergeHelpers(p, a, init + [x]))
  {
    var h := init + [x];
    assert h[..k] == init[..k];
    assert h[k] == init[k];
    var q := MergeHelpers(p, a, init);
    if a in q.children.kids && init[k] in q.children.kids[a] {
      MergeHelpersSnoc(p, a, init, x);
      MergeHelperKeepsAnchorList(q, a, x);
    }
  }

  /** The pass over the last helper gathers it. */
  lemma GatheredLast(p: Plan, a: Node, init: seq<Node>, x: Node)
    ensures GatheredAt(p, a, init + [x], |init|, MergeHelpers(p, a, init + [x]))
  {
    MergeHelpersSnoc(p, a, init, x);
    assert (init + [x])[..|init|] == init && (init + [x])[|init|] == x;
  }

  /**
   * The anchor branch gathers every helper: each one is either below the
   * anchor already when the loop reaches it, and stays where it is, or is
   * moved into the anchor's own list and stays there.
   */
  lemma {:induction false} MergeHelpersGathers(p: Plan, a: Node, helpers: seq<Node>)
    ensures forall k :: 0 <= k < |helpers| ==> GatheredAt(p, a, helpers, k, MergeHelpers(p, a, helpers))
    decreases |helpers|
  {
    if helpers != [] {
      var init, x := helpers[..|helpers| - 1], helpers[|helpers| - 1];
      assert helpers == init + [x];
      MergeHelpersGathers(p, a, init);
      forall k | 0 <= k < |helpers| ensures GatheredAt(p, a, init + [x], k, MergeHelpers(p, a, init + [x])) {
        if k < |init| { GatheredStays(p, a, init, x, k); } else { GatheredLast(p, a, init, x); }
      }
    }
  }

  /** Every model named steamwebhelper.exe other than the anchor ends below it, as MergeHelpersGathers states. */
  lemma SteamAnchorGathers(items: seq<ProcessInfo>, p: Plan, order: seq<int>)
    requires Anchor(items, p.roots, order).Some?
    ensures var a, helpers := Anchor(items, p.roots, order).value, Filter(PidNodes(order), OtherHelperTest(items, Anchor(items, p.roots, order).value));
      && MergeSteam(items, p, order) == MergeHelpers(p, a, helpers)
      && (forall n :: n in PidNodes(order) && n != a && IsHelperName(NodeName(items, n)) ==> n in helpers)
      && (forall k :: 0 <= k < |helpers| ==> GatheredAt(p, a, helpers, k, MergeSteam(items, p, order)))
  {
    var a := Anchor(items, p.roots, order).value;
    MergeHelpersGathers(p, a, Filter(PidNodes(order), OtherHelperTest(items, a)));
  }

  // ------------------------------------------- ContainsRecursive as written

  /**
   * ContainsRecursive as written, followed along its first calls: a frame
   * for x that does not find h in x's list calls itself first on the first
   * member of that list. The row of the frame at depth n, or nothing when the
   * chain of first calls stops above depth n.
   */
  function FirstCallChain(kids: map<Node, seq<Node>>, x: Node, h: Node, n: nat): (y: Option<Node>)
    ensures n == 0 ==> y == Some(x)
    ensures n > 0 && (x !in kids || h in kids[x] || kids[x] == []) ==> y.None?
    decreases n
  {
    if n == 0 then Some(x)
    else if x in kids && h !in kids[x] && kids[x] != [] then FirstCallChain(kids, kids[x][0], h, n - 1)
    else None
  }

  /** On a two-row cycle that does not list h, the chain of first calls reaches every depth. */
  lemma {:induction false} CycleNeverEnds(kids: map<Node, seq<Node>>, a: Node, b: Node, h: Node, n: nat)
    requires a in kids && kids[a] == [b] && b in kids && kids[b] == [a]
    requires h != a && h != b
    ensures FirstCallChain(kids, a, h, n).Some? && FirstCallChain(kids, b, h, n).Some?
    decreases n
  {
    if n > 0 {
      CycleNeverEnds(kids, a, b, h, n - 1);
    }
  }

  /** The bounded search on the same cycle answers, at every bound, that h is not below either row. */
  lemma {:induction false} CycleHidesHelper(kids: map<Node, seq<Node>>, a: Node, b: Node, h: Node, fuel: nat)
    requires a in kids && kids[a] == [b] && b in kids && kids[b] == [a]
    requires h != a && h != b
    ensures !Descends(kids, a, h, fuel) && !Descends(kids, b, h, fuel)
    decreases fuel
  {
    if fuel > 0 {
      CycleHidesHelper(kids, a, b, h, fuel - 1);
    }
  }

  /**
   * The helper pass as written closes a cycle when the helper's own list
   * holds the anchor: the helper is not yet below the anchor, so it is moved
   * into the anchor's list, and the search for any further helper then
   * nests without end (a stack overflow, which no catch handles).
   */
  lemma MergeHelperClosesCycle(p: Plan, a: Node, h: Node, h2: Node, n: nat)
    requires a !in p.children.kids
    requires h in p.children.kids && p.children.kids[h] == [a]
    requires forall q :: q in p.children.kids ==> h !in p.children.kids[q]
    requires h2 != a && h2 != h
    ensures !Descends(p.children.kids, a, h, |p.children.parents|)
    ensures MergeHelper(p, a, h).children.kids == p.children.kids[a := [h]]
    ensures FirstCallChain(MergeHelper(p, a, h).children.kids, a, h2, n).Some?
  {
    var c := p.children;
    assert ListingParent(c, h).None?;
    var kids := MergeHelper(p, a, h).children.kids;
    assert kids == c.kids[a := [h]];
    CycleNeverEnds(kids, a, h, h2, n);
  }

  /** A sample in which the merge itself makes the cycle: steam.exe (10) is a child of helper 5, and helper 6 follows. */
  function CycleSample(): seq<ProcessInfo> {
    [ProcessInfo(5, "steamwebhelper.exe", 0.0, 0, 0.0, 0, []),
     ProcessInfo(10, "steam.exe", 0.0, 0, 0.0, 5, []),
     ProcessInfo(6, "steamwebhelper.exe", 0.0, 0, 0.0, 0, [])]
  }

  /** Where each pid of the cycle sample last occurs. */
  lemma LatestInCycleSample()
    ensures var items := CycleSample();
      LatestIndex(items, 5) == 0 && LatestIndex(items, 10) == 1 && LatestIndex(items, 6) == 2
  {
    var items := CycleSample();
    assert items[..2][..1] == items[..1];
    assert LatestIndex(items[..1], 5) == 0;
    assert LatestIndex(items[..2], 10) == 1;
    assert LatestIndex(items[..2], 5) == 0;
  }

  /** The names of the cycle sample: two helpers under no launcher, and steam.exe placed under helper 5. */
  lemma CycleSampleNames()
    ensures var items := CycleSample();
      && IsHelperName(NameOfPid(items, 5)) && IsSteamName(NameOfPid(items, 10)) && IsHelperName(NameOfPid(items, 6))
      && !IsSteamName(NameOfPid(items, 5)) && !IsSteamName(NameOfPid(items, 6))
      && !IsChildRecord(items, items[0]) && IsChildRecord(items, items[1]) && !IsChildRecord(items, items[2])
  {
    var items := CycleSample();
    var helper := "steamwebhelper.exe";
    LatestInCycleSample();
    assert NameOfPid(items, 5) == helper && NameOfPid(items, 10) == "steam.exe" && NameOfPid(items, 6) == helper;
    HelperIsNotSteam(helper);
    HelperNameIsNoLauncher();
  }

  /** No curated launcher name has the length of "steamwebhelper.exe". */
  lemma LauncherNameLengths()
    ensures forall i :: 0 <= i < |LauncherNames| ==> |LauncherNames[i]| != 18
  {
  }

  /** steamwebhelper.exe is not a launcher: not listed, and ending in neither Host.exe nor Broker.exe. */
  lemma HelperNameIsNoLauncher()
    ensures !IsLauncherParentName("steamwebhelper.exe")
  {
    var helper := "steamwebhelper.exe";
    LauncherNameLengths();
    assert !InLauncherList(helper) by {
      forall i | 0 <= i < |LauncherNames| ensures !EqualsIgnoreCase(helper, LauncherNames[i]) {
        assert |ToUpper(LauncherNames[i])| != |ToUpper(helper)|;
      }
    }
    ForeignSuffix(helper, "Host.exe", 'l', 'H');
    ForeignSuffix(helper, "Broker.exe", 'h', 'B');
  }

  /** A name whose character where the suffix would start differs from the suffix's first, ignoring case, does not end with it. */
  lemma ForeignSuffix(name: string, suffix: string, at: char, first: char)
    requires 0 < |suffix| <= |name| && name[|name| - |suffix|] == at && suffix[0] == first
    requires Upper(at) != Upper(first)
    ensures !EndsWithIgnoreCase(name, suffix)
  {
    assert ToUpper(name)[|name| - |suffix|..][0] == Upper(at);
  }

  /**
   * On that sample, with the models in pid order 5, 10, 6: steam.exe is the
   * anchor, the helpers are 5 and 6, and after helper 5 is moved the search
   * for helper 6 has no end as written; the bounded search of the model
   * answers instead, and helper 6 ends in the anchor's list.
   */
  lemma SteamMergeCycleSample(n: nat)
    ensures var items, order := CycleSample(), [5, 10, 6];
      var p := Plan(Roots(items), DesiredChildren(items), None);
      && Anchor(items, p.roots, order) == Some(Proc(10))
      && Filter(PidNodes(order), OtherHelperTest(items, Proc(10))) == [Proc(5), Proc(6)]
      && FirstCallChain(MergeHelper(p, Proc(10), Proc(5)).children.kids, Proc(10), Proc(6), n).Some?
      && Proc(10) in MergeSteam(items, p, order).children.kids
      && Proc(6) in MergeSteam(items, p, order).children.kids[Proc(10)]
  {
    var items, order := CycleSample(), [5, 10, 6];
    CycleSamplePlan();
    var p := Plan(Roots(items), DesiredChildren(items), None);
    CycleSampleAnchor();
    CycleSampleHelpers();
    var helpers := Filter(PidNodes(order), OtherHelperTest(items, Proc(10)));
    MergeHelperClosesCycle(p, Proc(10), Proc(5), Proc(6), n);
    var p1 := MergeHelper(p, Proc(10), Proc(5));
    CycleHidesHelper(p1.children.kids, Proc(10), Proc(5), Proc(6), |p1.children.parents|);
    assert helpers[1..] == [Proc(6)];
    assert MergeHelpers(p, Proc(10), helpers) == MergeHelpers(p1, Proc(10), [Proc(6)]);
    assert MergeHelpers(p, Proc(10), helpers) == MergeHelper(p1, Proc(10), Proc(6));
  }

  /** The partition of the cycle sample: helpers 5 and 6 are roots, and steam.exe is listed under helper 5. */
  lemma CycleSamplePlan()
    ensures Roots(CycleSample()) == [Proc(5), Proc(6)]
    ensures DesiredChildren(CycleSample()) == ChildMap([Proc(5)], map[Proc(5) := [Proc(10)]])
  {
    var items := CycleSample();
    CycleSampleNames();
    assert RootsUpTo(items, 1) == [Proc(5)];
    assert RootsUpTo(items, 2) == [Proc(5)];
    assert ChildrenUpTo(items, 1) == ChildMap([], map[]);
    assert [] + [Proc(5)] == [Proc(5)];
    assert ChildrenUpTo(items, 2) == ChildMap([Proc(5)], map[Proc(5) := [Proc(10)]]);
  }

  /** The anchor of the cycle sample is steam.exe, the first model so named, since no root is. */
  lemma CycleSampleAnchor()
    ensures Anchor(CycleSample(), [Proc(5), Proc(6)], [5, 10, 6]) == Some(Proc(10))
  {
    var items, order := CycleSample(), [5, 10, 6];
    CycleSampleNames();
    var roots, nodes := [Proc(5), Proc(6)], PidNodes(order);
    assert nodes == [Proc(5), Proc(10), Proc(6)];
    assert forall k :: 0 <= k < |roots| ==> !IsSteamName(NodeName(items, roots[k]));
    assert FirstSteamAt(items, nodes, 1);
  }

  /** The helpers of the cycle sample: 5 and 6, in model order. */
  lemma CycleSampleHelpers()
    ensures Filter(PidNodes([5, 10, 6]), OtherHelperTest(CycleSample(), Proc(10))) == [Proc(5), Proc(6)]
  {
    var items, nodes := CycleSample(), PidNodes([5, 10, 6]);
    CycleSampleNames();
    assert nodes == [Proc(5), Proc(10), Proc(6)];
    var other := OtherHelperTest(items, Proc(10));
    assert other(Proc(5)) && !other(Proc(10)) && other(Proc(6));
    assert nodes[1..][1..] == [Proc(6)];
  }

  /** Removing the elements a filter keeps leaves the rest. */
  lemma RemoveFiltered<T>(s: seq<T>, keep: T -> bool)
    ensures multiset(RemoveEach(s, Filter(s, keep))) == multiset(Filter(s, Not(keep)))
  {
    FilterSplit(s, keep);
  }

  /**
   * Without an anchor: when helper roots exist they are gathered, in order,
   * under one synthetic group with their count and zero own values, and the
   * group takes their place among the roots; otherwise nothing changes.
   */
  lemma SyntheticGroupGathers(items: seq<ProcessInfo>, p: Plan, order: seq<int>)
    requires Anchor(items, p.roots, order).None?
    ensures var r, helperRoots := MergeSteam(items, p, order), Filter(p.roots, HelperTest(items));
      && (helperRoots == [] ==> r == p)
      && (helperRoots != [] ==>
            && r.steam == Some(SteamRow(|helperRoots|, Zero()))
            && SteamGroup in r.children.kids && r.children.kids[SteamGroup] == helperRoots
            && multiset(r.roots) == multiset(Filter(p.roots, Not(HelperTest(items)))) + multiset{SteamGroup})
  {
    RemoveFiltered(p.roots, HelperTest(items));
  }

  /** The same partition and merge, but the synthetic group has the helpers' summed values as its own. */
  lemma AsWrittenDiffersOnlyInOwn(items: seq<ProcessInfo>, p: Plan, order: seq<int>)
    ensures var c, w := MergeSteam(items, p, order), MergeSteamAsWritten(items, p, order);
      c.roots == w.roots && c.children == w.children && (c.steam.Some? <==> w.steam.Some?)
      && (c.steam.Some? && p.steam.None? ==>
            && c.steam.value.count == w.steam.value.count && c.steam.value.own == Zero()
            && w.steam.value.own == SyntheticOwnAsWritten(items, Filter(p.roots, HelperTest(items))))
  {
  }

  // ------------------------------------------------------------ aggregation

  function KidsOf(p: Plan, n: Node): seq<Node> {
    if n in p.children.kids then p.children.kids[n] else []
  }

  /** The values a row holds before aggregation. */
  function Own(items: seq<ProcessInfo>, p: Plan, n: Node): (m: Metrics)
  {
    if n.Proc? then OwnOfPid(items, n.pid)
    else if p.steam.Some? then p.steam.value.own
    else Zero()
  }

  /** Own values in range: a pid row always is; the synthetic group when its own values are. */
  ghost predicate OwnInRange(items: seq<ProcessInfo>, p: Plan) {
    p.steam.Some? ==> 0.0 <= p.steam.value.own.cpu <= 100.0 && 0.0 <= p.steam.value.own.gpu <= 100.0
  }

  /**
   * AggregateProcessTree: a row's CPU and GPU become its own plus its
   * children's aggregated values, clamped to [0, 100]; its memory becomes its
   * own plus theirs, unclamped. The recursion goes `fuel` levels deep.
   */
  function Agg(items: seq<ProcessInfo>, p: Plan, n: Node, fuel: nat): (m: Metrics)
    decreases fuel, 0
  {
    var own := Own(items, p, n);
    var sub := if fuel == 0 then Zero() else SumAgg(items, p, KidsOf(p, n), fuel - 1);
    Metrics(Clamp(own.cpu + sub.cpu, 0.0, 100.0), own.mem + sub.mem, Clamp(own.gpu + sub.gpu, 0.0, 100.0))
  }

  /** The tuple sums the loop over a node's children accumulates. */
  function SumAgg(items: seq<ProcessInfo>, p: Plan, ks: seq<Node>, fuel: nat): (m: Metrics)
    decreases fuel, |ks|
  {
    if ks == [] then Zero() else Plus(Agg(items, p, ks[0], fuel), SumAgg(items, p, ks[1..], fuel))
  }

  /** The unclamped totals of a subtree: own values plus every descendant's, `fuel` levels deep. */
  function Total(items: seq<ProcessInfo>, p: Plan, n: Node, fuel: nat): (m: Metrics)
    decreases fuel, 0
  {
    var own := Own(items, p, n);
    if fuel == 0 then own else Plus(own, SumTotal(items, p, KidsOf(p, n), fuel - 1))
  }

  function SumTotal(items: seq<ProcessInfo>, p: Plan, ks: seq<Node>, fuel: nat): (m: Metrics)
    decreases fuel, |ks|
  {
    if ks == [] then Zero() else Plus(Total(items, p, ks[0], fuel), SumTotal(items, p, ks[1..], fuel))
  }

  /**
   * The rows AggregateProcessTree and the sort reach from the given ones, in
   * visit order, each before its children, `fuel` levels deep.
   */
  function Reach(p: Plan, ns: seq<Node>, fuel: nat): (r: seq<Node>)
    ensures forall x :: x in ns ==> x in r
    decreases fuel, |ns|
  {
    if ns == [] then []
    else [ns[0]] + (if fuel == 0 then [] else Reach(p, KidsOf(p, ns[0]), fuel - 1)) + Reach(p, ns[1..], fuel)
  }

  /** Every reached row is one of the given rows or in some desired list. */
  lemma {:induction false} ReachListed(p: Plan, ns: seq<Node>, fuel: nat)
    ensures forall x :: x in Reach(p, ns, fuel) ==> x in ns || exists k :: k in p.children.kids && x in p.children.kids[k]
    decreases fuel, |ns|
  {
    if ns != [] {
      if fuel > 0 {
        ReachListed(p, KidsOf(p, ns[0]), fuel - 1);
      }
      ReachListed(p, ns[1..], fuel);
    }
  }

  /** The fuel of the recursions: deeper than any forest of the sample's rows and the synthetic group. */
  function Depth(items: seq<ProcessInfo>): nat { |items| + 1 }

  /** min(100, x + min(100, y)) is min(100, x + y) for non-negative x, y. */
  lemma ClampAbsorbs(x: real, y: real, z: real)
    requires x >= 0.0 && y >= 0.0 && z >= 0.0
    ensures Clamp(x + Clamp(y, 0.0, 100.0) + z, 0.0, 100.0) == Clamp(x + y + z, 0.0, 100.0)
  {
  }

  /**
   * Intermediate clamping changes nothing: every aggregated row shows the
   * clamped CPU and GPU totals of its subtree and the exact memory total.
   */
  lemma {:induction false} AggIsClampedTotal(items: seq<ProcessInfo>, p: Plan, n: Node, fuel: nat)
    requires OwnInRange(items, p)
    ensures var a, t := Agg(items, p, n, fuel), Total(items, p, n, fuel);
      a.cpu == Clamp(t.cpu, 0.0, 100.0) && a.mem == t.mem && a.gpu == Clamp(t.gpu, 0.0, 100.0)
      && t.cpu >= 0.0 && t.gpu >= 0.0
    decreases fuel, 0
  {
    OwnBounded(items, p, n);
    if fuel > 0 {
      var own, ks := Own(items, p, n), KidsOf(p, n);
      SumAggIsClampedTotal(items, p, ks, fuel - 1, own.cpu, own.gpu);
      AggTotalStep(items, p, n, fuel);
    }
  }

  /** The own values of every row lie in [0, 100] for CPU and GPU. */
  lemma OwnBounded(items: seq<ProcessInfo>, p: Plan, n: Node)
    requires OwnInRange(items, p)
    ensures var o := Own(items, p, n); 0.0 <= o.cpu <= 100.0 && 0.0 <= o.gpu <= 100.0
  {
  }

  /** One level of Agg and Total: the own values combined with the children's sums. */
  lemma AggTotalStep(items: seq<ProcessInfo>, p: Plan, n: Node, fuel: nat)
    requires fuel > 0
    ensures var own, sa := Own(items, p, n), SumAgg(items, p, KidsOf(p, n), fuel - 1);
      Agg(items, p, n, fuel) == Metrics(Clamp(own.cpu + sa.cpu, 0.0, 100.0), own.mem + sa.mem, Clamp(own.gpu + sa.gpu, 0.0, 100.0))
    ensures Total(items, p, n, fuel) == Plus(Own(items, p, n), SumTotal(items, p, KidsOf(p, n), fuel - 1))
  {
  }

  lemma {:induction false} SumAggIsClampedTotal(items: seq<ProcessInfo>, p: Plan, ks: seq<Node>, fuel: nat, x: real, y: real)
    requires OwnInRange(items, p) && x >= 0.0 && y >= 0.0
    ensures var a, t := SumAgg(items, p, ks, fuel), SumTotal(items, p, ks, fuel);
      Clamp(x + a.cpu, 0.0, 100.0) == Clamp(x + t.cpu, 0.0, 100.0) && a.mem == t.mem
      && Clamp(y + a.gpu, 0.0, 100.0) == Clamp(y + t.gpu, 0.0, 100.0)
      && a.cpu >= 0.0 && a.gpu >= 0.0 && t.cpu >= 0.0 && t.gpu >= 0.0
    decreases fuel, |ks|
  {
    if ks != [] {
      var first, rest := Total(items, p, ks[0], fuel), SumTotal(items, p, ks[1..], fuel);
      var af, ar := Agg(items, p, ks[0], fuel), SumAgg(items, p, ks[1..], fuel);
      AggIsClampedTotal(items, p, ks[0], fuel);
      SumAggIsClampedTotal(items, p, ks[1..], fuel, x + first.cpu, y + first.gpu);
      ClampAbsorbs(x, first.cpu, ar.cpu);
      ClampAbsorbs(y, first.gpu, ar.gpu);
      assert x + af.cpu + ar.cpu == x + Clamp(first.cpu, 0.0, 100.0) + ar.cpu;
    }
  }

  /**
   * With the correction the synthetic group shows exactly the aggregated sum
   * of the helpers under it: zero own values, so each helper counts once.
   */
  lemma SyntheticGroupCountsOnce(items: seq<ProcessInfo>, p: Plan, order: seq<int>, fuel: nat)
    requires p.steam.None? && fuel > 0
    ensures var r := MergeSteam(items, p, order);
      r.steam.Some? ==>
        var s := SumAgg(items, r, KidsOf(r, SteamGroup), fuel - 1);
        Agg(items, r, SteamGroup, fuel) == Metrics(Clamp(s.cpu, 0.0, 100.0), s.mem, Clamp(s.gpu, 0.0, 100.0))
  {
    AsWrittenDiffersOnlyInOwn(items, p, order);
  }

  /** As written, the group adds the helpers' own values on top of their aggregated values. */
  lemma SyntheticGroupCountsTwiceAsWritten(items: seq<ProcessInfo>, p: Plan, order: seq<int>, fuel: nat)
    requires p.steam.None? && fuel > 0
    ensures var w := MergeSteamAsWritten(items, p, order);
      w.steam.Some? ==>
        Agg(items, w, SteamGroup, fuel).mem
          == SumOwn(items, KidsOf(w, SteamGroup)).mem + SumAgg(items, w, KidsOf(w, SteamGroup), fuel - 1).mem
  {
    AsWrittenDiffersOnlyInOwn(items, p, order);
  }

  /** The sample of one steamwebhelper.exe without a parent and without steam.exe. */
  ghost predicate LoneHelper(items: seq<ProcessInfo>, order: seq<int>) {
    |items| == 1 && IsHelperName(items[0].name) && items[0].parentId <= 0 && order == [items[0].processId]
  }

  lemma LoneHelperPlan(items: seq<ProcessInfo>, order: seq<int>)
    requires LoneHelper(items, order)
    ensures var h := Proc(items[0].processId);
      && Roots(items) == [h] && DesiredChildren(items) == ChildMap([], map[])
      && Anchor(items, [h], order).None? && Filter([h], HelperTest(items)) == [h]
      && Own(items, BuildPlan(items, order), h) == OwnOfRecord(items[0])
  {
    var h := Proc(items[0].processId);
    HelperIsNotSteam(items[0].name);
    assert NodeName(items, h) == items[0].name;
    assert PidNodes(order) == [h];
    assert Filter([h], HelperTest(items)) == [h] + Filter([h][1..], HelperTest(items));
  }

  /**
   * The double count on the smallest sample: one helper of m bytes, no
   * steam.exe. As written the synthetic group shows 2m bytes.
   */
  lemma LoneHelperDoubleCounted(items: seq<ProcessInfo>, order: seq<int>, fuel: nat)
    requires LoneHelper(items, order) && fuel > 0
    ensures BuildPlanAsWritten(items, order).roots == [SteamGroup]
    ensures Agg(items, BuildPlanAsWritten(items, order), SteamGroup, fuel).mem == 2 * items[0].memoryBytes
  {
    var h := Proc(items[0].processId);
    LoneHelperPlan(items, order);
    assert RemoveEach([h], [h]) == [];
    var w := BuildPlanAsWritten(items, order);
    assert w.steam == Some(SteamRow(1, SyntheticOwnAsWritten(items, [h])));
    assert KidsOf(w, SteamGroup) == [h] && KidsOf(w, h) == [];
    assert SumOwn(items, [h]).mem == items[0].memoryBytes;
    assert Own(items, w, SteamGroup).mem == items[0].memoryBytes;
    assert Own(items, w, h).mem == items[0].memoryBytes;
    assert [h][1..] == [];
    assert Agg(items, w, h, fuel - 1).mem == items[0].memoryBytes;
    assert SumAgg(items, w, [h], fuel - 1).mem == items[0].memoryBytes;
  }

  /** Corrected, the same sample shows m bytes, the helper's own memory. */
  lemma LoneHelperCountedOnce(items: seq<ProcessInfo>, order: seq<int>, fuel: nat)
    requires LoneHelper(items, order) && fuel > 0
    ensures BuildPlan(items, order).roots == [SteamGroup]
    ensures Agg(items, BuildPlan(items, order), SteamGroup, fuel).mem == items[0].memoryBytes
  {
    var h := Proc(items[0].processId);
    LoneHelperPlan(items, order);
    assert RemoveEach([h], [h]) == [];
    var c := BuildPlan(items, order);
    assert c.steam == Some(SteamRow(1, Zero()));
    assert KidsOf(c, SteamGroup) == [h] && KidsOf(c, h) == [];
    assert Own(items, c, h).mem == items[0].memoryBytes;
    assert [h][1..] == [];
    assert Agg(items, c, h, fuel - 1).mem == items[0].memoryBytes;
    assert SumAgg(items, c, [h], fuel - 1).mem == items[0].memoryBytes;
  }

  /**
   * Two processes that name each other as parent (a reused pid), neither a
   * launcher: both are placed under the other, so neither is a root and the
   * table, which starts from the roots, shows neither.
   */
  lemma ParentCycleHidden(items: seq<ProcessInfo>)
    requires |items| == 2 && items[0].processId != items[1].processId
    requires items[0].parentId == items[1].processId > 0 && items[1].parentId == items[0].processId > 0
    requires !IsLauncherParentName(items[0].name) && !IsLauncherParentName(items[1].name)
    ensures Roots(items) == []
    ensures var c := DesiredChildren(items);
      Proc(items[0].processId) in c.kids && c.kids[Proc(items[0].processId)] == [Proc(items[1].processId)]
      && Proc(items[1].processId) in c.kids && c.kids[Proc(items[1].processId)] == [Proc(items[0].processId)]
  {
    assert LatestIndex(items, items[1].processId) == 1;
    assert LatestIndex(items, items[0].processId) == 0;
    assert IsChildRecord(items, items[0]) && IsChildRecord(items, items[1]);
  }

  // ------------------------------------------------------------ soundness

  lemma DistinctSnoc<T>(s: seq<T>, x: T)
    requires DistinctSeq(s) && x !in s
    ensures DistinctSeq(s + [x])
  {
    forall i, j | 0 <= i < j < |s + [x]| ensures (s + [x])[i] != (s + [x])[j] {
      if j == |s| { assert (s + [x])[i] == s[i]; }
      else { assert (s + [x])[i] == s[i] && (s + [x])[j] == s[j]; }
    }
  }

  /** RemoveFirst keeps a list duplicate-free and adds nothing. */
  lemma {:induction false} RemoveFirstDistinct<T>(s: seq<T>, y: T)
    requires DistinctSeq(s)
    ensures DistinctSeq(RemoveFirst(s, y)) && forall x :: x in RemoveFirst(s, y) ==> x in s && x != y
    decreases |s|
  {
    var r := RemoveFirst(s, y);
    forall x | x in r ensures x in s { assert x in multiset(r); }
    if s != [] {
      assert DistinctSeq(s[1..]) by {
        forall i, j | 0 <= i < j < |s[1..]| ensures s[1..][i] != s[1..][j] { assert s[1..][i] == s[i + 1]; }
      }
      RemoveFirstDistinct(s[1..], y);
      if s[0] != y {
        var t := RemoveFirst(s[1..], y);
        assert s[0] !in s[1..];
        assert r == [s[0]] + t;
        forall i, j | 0 <= i < j < |r| ensures r[i] != r[j] {
          if i == 0 { assert r[j] == t[j - 1]; } else { assert r[i] == t[i - 1] && r[j] == t[j - 1]; }
        }
      } else {
        assert y !in s[1..];
      }
    }
  }

  lemma {:induction false} RemoveEachDistinct<T>(s: seq<T>, xs: seq<T>)
    requires DistinctSeq(s)
    ensures DistinctSeq(RemoveEach(s, xs)) && forall x :: x in RemoveEach(s, xs) ==> x in s
    decreases |xs|
  {
    if xs != [] {
      RemoveFirstDistinct(s, xs[0]);
      RemoveEachDistinct(RemoveFirst(s, xs[0]), xs[1..]);
    }
  }

  /** Every element is the row of one of the first n records. */
  ghost predicate AmongFirst(items: seq<ProcessInfo>, n: nat, s: seq<Node>) {
    forall x :: x in s ==> exists k :: 0 <= k < n && k < |items| && x == Proc(items[k].processId)
  }

  /** The row of a later record is not among the rows of earlier ones. */
  lemma NotAmongFirst(items: seq<ProcessInfo>, n: nat, s: seq<Node>)
    requires UniquePids(items) && n < |items| && AmongFirst(items, n, s)
    ensures Proc(items[n].processId) !in s
  {
    forall x | x in s ensures x != Proc(items[n].processId) {
      var k :| 0 <= k < n && k < |items| && x == Proc(items[k].processId);
    }
  }

  lemma {:induction false} RootsDistinct(items: seq<ProcessInfo>, n: nat)
    requires UniquePids(items) && n <= |items|
    ensures DistinctSeq(RootsUpTo(items, n)) && AmongFirst(items, n, RootsUpTo(items, n))
    decreases n
  {
    if n > 0 {
      RootsDistinct(items, n - 1);
      var s, x := RootsUpTo(items, n - 1), Proc(items[n - 1].processId);
      if !IsChildRecord(items, items[n - 1]) {
        NotAmongFirst(items, n - 1, s);
        DistinctSnoc(s, x);
        AmongFirstSnoc(items, n - 1, s, x);
      } else {
        AmongFirstGrow(items, n - 1, s);
      }
    }
  }

  /** A live row: the model of a live pid, or the synthetic group once it exists. */
  ghost predicate LiveNode(n: Node, live: set<int>, steam: bool) {
    (n.Proc? && n.pid in live) || (n.SteamGroup? && steam)
  }

  /** Every list of a desired-children map names live pids, once each. */
  ghost predicate SoundLists(kids: map<Node, seq<Node>>, live: set<int>) {
    forall k :: k in kids ==> DistinctSeq(kids[k]) && forall x :: x in kids[k] ==> x.Proc? && x.pid in live
  }

  /** The desired lists name live pids, once each; the keys are live rows. */
  ghost predicate SoundChildren(c: ChildMap, live: set<int>, steam: bool) {
    WellKeyed(c) && (forall k :: k in c.kids ==> LiveNode(k, live, steam)) && SoundLists(c.kids, live)
  }

  /** What the view model needs of a plan: duplicate-free lists of live rows. */
  ghost predicate Sound(p: Plan, live: set<int>) {
    DistinctSeq(p.roots) && (forall x :: x in p.roots ==> LiveNode(x, live, p.steam.Some?))
    && SoundChildren(p.children, live, p.steam.Some?)
  }

  lemma AddChildSound(c: ChildMap, key: Node, x: Node, live: set<int>, steam: bool)
    requires SoundChildren(c, live, steam) && LiveNode(key, live, steam) && x.Proc? && x.pid in live
    requires key in c.kids ==> x !in c.kids[key]
    ensures SoundChildren(AddChild(c, key, x), live, steam)
  {
    var prev := if key in c.kids then c.kids[key] else [];
    DistinctSnoc(prev, x);
    var r := AddChild(c, key, x);
    forall k | k in r.kids ensures DistinctSeq(r.kids[k]) && forall y :: y in r.kids[k] ==> y.Proc? && y.pid in live {
      if k != key { assert r.kids[k] == c.kids[k]; }
    }
  }

  lemma AmongFirstSnoc(items: seq<ProcessInfo>, n: nat, s: seq<Node>, x: Node)
    requires n < |items| && AmongFirst(items, n, s) && x == Proc(items[n].processId)
    ensures AmongFirst(items, n + 1, s + [x])
  {
    forall y | y in s + [x] ensures exists k :: 0 <= k < n + 1 && k < |items| && y == Proc(items[k].processId) {
      if y in s {
        var k :| 0 <= k < n && k < |items| && y == Proc(items[k].processId);
      } else {
        assert y == Proc(items[n].processId);
      }
    }
  }

  lemma AmongFirstGrow(items: seq<ProcessInfo>, n: nat, s: seq<Node>)
    requires AmongFirst(items, n, s)
    ensures AmongFirst(items, n + 1, s)
  {
    forall y | y in s ensures exists k :: 0 <= k < n + 1 && k < |items| && y == Proc(items[k].processId) {
      var k :| 0 <= k < n && k < |items| && y == Proc(items[k].processId);
    }
  }

  lemma {:induction false} ChildrenAmong(items: seq<ProcessInfo>, n: nat)
    requires n <= |items|
    ensures forall k :: k in ChildrenUpTo(items, n).kids ==> AmongFirst(items, n, ChildrenUpTo(items, n).kids[k])
    decreases n
  {
    if n > 0 {
      ChildrenAmong(items, n - 1);
      var r, c := items[n - 1], ChildrenUpTo(items, n - 1);
      var c2 := ChildrenUpTo(items, n);
      forall k | k in c2.kids ensures AmongFirst(items, n, c2.kids[k]) {
        if IsChildRecord(items, r) && k == Proc(r.parentId) {
          var prev := if k in c.kids then c.kids[k] else [];
          assert c2.kids[k] == prev + [Proc(r.processId)];
          AmongFirstSnoc(items, n - 1, prev, Proc(r.processId));
        } else {
          assert c2.kids[k] == c.kids[k];
          AmongFirstGrow(items, n - 1, c.kids[k]);
        }
      }
    }
  }

  /** The parent of a child record is live. */
  lemma ChildParentLive(items: seq<ProcessInfo>, r: ProcessInfo)
    requires IsChildRecord(items, r)
    ensures r.parentId in Live(items)
  {
    var j := LatestIndex(items, r.parentId);
    assert items[j].processId == r.parentId;
  }

  lemma ChildrenSoundStep(items: seq<ProcessInfo>, n: nat)
    requires UniquePids(items) && 0 < n <= |items|
    requires SoundChildren(ChildrenUpTo(items, n - 1), Live(items), false)
    ensures SoundChildren(ChildrenUpTo(items, n), Live(items), false)
  {
    var r, c := items[n - 1], ChildrenUpTo(items, n - 1);
    if IsChildRecord(items, r) {
      ChildParentLive(items, r);
      var key := Proc(r.parentId);
      if key in c.kids {
        ChildrenAmong(items, n - 1);
        NotAmongFirst(items, n - 1, c.kids[key]);
      }
      AddChildSound(c, key, Proc(r.processId), Live(items), false);
    }
  }

  lemma {:induction false} ChildrenSound(items: seq<ProcessInfo>, n: nat)
    requires UniquePids(items) && n <= |items|
    ensures SoundChildren(ChildrenUpTo(items, n), Live(items), false)
    decreases n
  {
    if n > 0 {
      ChildrenSound(items, n - 1);
      ChildrenSoundStep(items, n);
    }
  }

  lemma InitialSound(items: seq<ProcessInfo>)
    requires UniquePids(items)
    ensures Sound(Plan(Roots(items), DesiredChildren(items), None), Live(items))
  {
    RootsDistinct(items, |items|);
    ChildrenSound(items, |items|);
    forall x | x in Roots(items) ensures LiveNode(x, Live(items), false) {
      var k :| 0 <= k < |items| && x == Proc(items[k].processId);
    }
  }

  lemma UnlistSound(c: ChildMap, h: Node, live: set<int>, steam: bool)
    requires SoundChildren(c, live, steam)
    ensures SoundChildren(Unlist(c, h), live, steam)
  {
    var r := Unlist(c, h);
    match ListingParent(c, h)
    case Some(q) =>
      RemoveFirstDistinct(c.kids[q], h);
      forall k | k in r.kids ensures DistinctSeq(r.kids[k]) && forall y :: y in r.kids[k] ==> y.Proc? && y.pid in live {
        if k != q { assert r.kids[k] == c.kids[k]; }
      }
    case None =>
  }

  lemma MergeHelperSound(p: Plan, a: Node, h: Node, live: set<int>)
    requires Sound(p, live) && LiveNode(a, live, p.steam.Some?) && h.Proc? && h.pid in live
    ensures Sound(MergeHelper(p, a, h), live)
  {
    var c := p.children;
    if !Descends(c.kids, a, h, |c.parents|) {
      RemoveFirstDistinct(p.roots, h);
      UnlistSound(c, h, live, p.steam.Some?);
      var c1 := Unlist(c, h);
      if !(a in c1.kids && h in c1.kids[a]) {
        AddChildSound(c1, a, h, live, p.steam.Some?);
      }
    }
  }

  lemma {:induction false} MergeHelpersSound(p: Plan, a: Node, helpers: seq<Node>, live: set<int>)
    requires Sound(p, live) && LiveNode(a, live, p.steam.Some?)
    requires forall x :: x in helpers ==> x.Proc? && x.pid in live
    ensures Sound(MergeHelpers(p, a, helpers), live)
    decreases |helpers|
  {
    if helpers != [] {
      MergeHelperSound(p, a, helpers[0], live);
      MergeHelpersSound(MergeHelper(p, a, helpers[0]), a, helpers[1..], live);
    }
  }

  lemma AnchorLive(items: seq<ProcessInfo>, roots: seq<Node>, order: seq<int>, live: set<int>)
    requires forall x :: x in roots ==> LiveNode(x, live, false)
    requires forall pid :: pid in order ==> pid in live
    ensures Anchor(items, roots, order).Some? ==> LiveNode(Anchor(items, roots, order).value, live, false)
  {
    var isSteam := (n: Node) => IsSteamName(NodeName(items, n));
    FirstWhereIsFirst(roots, isSteam);
    FirstWhereIsFirst(PidNodes(order), isSteam);
  }

  lemma GroupHelperRootsRootsSound(p: Plan, helperRoots: seq<Node>, own: Metrics, live: set<int>)
    requires Sound(p, live) && p.steam.None? && helperRoots != []
    ensures var r := GroupHelperRoots(p, helperRoots, own);
      DistinctSeq(r.roots) && forall x :: x in r.roots ==> LiveNode(x, live, true)
  {
    RemoveEachDistinct(p.roots, helperRoots);
    var rest := RemoveEach(p.roots, helperRoots);
    assert SteamGroup !in rest;
    DistinctSnoc(rest, SteamGroup);
    forall x | x in rest + [SteamGroup] ensures LiveNode(x, live, true) {
      if x != SteamGroup { assert x in rest; }
    }
  }

  lemma GroupHelperRootsChildrenSound(p: Plan, helperRoots: seq<Node>, own: Metrics, live: set<int>)
    requires Sound(p, live) && p.steam.None? && helperRoots != []
    requires DistinctSeq(helperRoots) && forall x :: x in helperRoots ==> x in p.roots
    ensures SoundChildren(GroupHelperRoots(p, helperRoots, own).children, live, true)
  {
    var c := GroupHelperRoots(p, helperRoots, own).children;
    forall k | k in c.kids ensures LiveNode(k, live, true) {
      if k != SteamGroup { assert k in p.children.kids; }
    }
    forall k | k in c.kids
      ensures DistinctSeq(c.kids[k]) && forall y :: y in c.kids[k] ==> y.Proc? && y.pid in live
    {
      if k != SteamGroup { assert c.kids[k] == p.children.kids[k]; }
    }
  }

  lemma GroupHelperRootsSound(p: Plan, helperRoots: seq<Node>, own: Metrics, live: set<int>)
    requires Sound(p, live) && p.steam.None? && helperRoots != []
    requires DistinctSeq(helperRoots) && forall x :: x in helperRoots ==> x in p.roots
    ensures Sound(GroupHelperRoots(p, helperRoots, own), live)
  {
    GroupHelperRootsRootsSound(p, helperRoots, own, live);
    GroupHelperRootsChildrenSound(p, helperRoots, own, live);
  }

  /**
   * The desired tree is sound when pids are unique: every row in it is a live
   * model or the synthetic group, and no list names a row twice.
   */
  lemma PlanSound(items: seq<ProcessInfo>, order: seq<int>)
    requires UniquePids(items) && ProcessMonitor.Enumerates(order, Live(items))
    ensures Sound(BuildPlan(items, order), Live(items))
  {
    var live := Live(items);
    var p := Plan(Roots(items), DesiredChildren(items), None);
    InitialSound(items);
    AnchorLive(items, p.roots, order, live);
    match Anchor(items, p.roots, order)
    case Some(a) =>
      MergeHelpersSound(p, a, Filter(PidNodes(order), OtherHelperTest(items, a)), live);
    case None =>
      var hr := Filter(p.roots, HelperTest(items));
      if hr != [] {
        FilterDistinct(p.roots, HelperTest(items));
        GroupHelperRootsSound(p, hr, Zero(), live);
      }
  }

  lemma {:induction false} FilterDistinct<T>(s: seq<T>, keep: T -> bool)
    requires DistinctSeq(s)
    ensures DistinctSeq(Filter(s, keep))
    decreases |s|
  {
    if s != [] {
      assert DistinctSeq(s[1..]) by {
        forall i, j | 0 <= i < j < |s[1..]| ensures s[1..][i] != s[1..][j] { assert s[1..][i] == s[i + 1]; }
      }
      FilterDistinct(s[1..], keep);
      var t := Filter(s[1..], keep);
      if keep(s[0]) {
        assert s[0] !in t by { assert s[0] !in s[1..]; }
        var r := Filter(s, keep);
        assert r == [s[0]] + t;
        forall i, j | 0 <= i < j < |r| ensures r[i] != r[j] {
          if i == 0 { assert r[j] == t[j - 1]; } else { assert r[i] == t[i - 1] && r[j] == t[j - 1]; }
        }
      }
    }
  }

  // ------------------------------------------------------------- grouping

  /** One group of GroupBy(r => r.Name, OrdinalIgnoreCase): the first member's name as key, the members in order. */
  datatype Group<T> = Group(key: string, members: seq<T>)

  /** The first group whose key equals the name, ignoring case, else -1. */
  function GroupIndex<T>(gs: seq<Group<T>>, name: string): (i: int)
    ensures -1 <= i < |gs|
    ensures i >= 0 ==> EqualsIgnoreCase(gs[i].key, name)
    ensures i == -1 ==> forall k :: 0 <= k < |gs| ==> !EqualsIgnoreCase(gs[k].key, name)
    decreases |gs|
  {
    if gs == [] then -1
    else if EqualsIgnoreCase(gs[0].key, name) then 0
    else
      var k := GroupIndex(gs[1..], name);
      if k == -1 then -1 else k + 1
  }

  /** One GroupBy step: the element joins the group of its name, or opens a new one at the end. */
  function AddToGroups<T>(gs: seq<Group<T>>, x: T, name: T -> string): (r: seq<Group<T>>)
  {
    var i := GroupIndex(gs, name(x));
    if i >= 0 then gs[i := gs[i].(members := gs[i].members + [x])] else gs + [Group(name(x), [x])]
  }

  /** GroupBy over the roots in order. */
  function GroupBy<T>(s: seq<T>, name: T -> string): (gs: seq<Group<T>>)
    decreases |s|
  {
    if s == [] then [] else AddToGroups(GroupBy(s[..|s| - 1], name), s[|s| - 1], name)
  }

  /** The elements whose name equals the key ignoring case, in order. */
  function Matching<T>(s: seq<T>, name: T -> string, key: string): (r: seq<T>)
    decreases |s|
  {
    if s == [] then []
    else Matching(s[..|s| - 1], name, key) + (if EqualsIgnoreCase(name(s[|s| - 1]), key) then [s[|s| - 1]] else [])
  }

  /** Matching is the filter by name: an element is kept exactly when its name matches. */
  lemma {:induction false} MatchingMembers<T>(s: seq<T>, name: T -> string, key: string)
    ensures forall x :: x in Matching(s, name, key) <==> x in s && EqualsIgnoreCase(name(x), key)
    decreases |s|
  {
    if s != [] {
      MatchingMembers(s[..|s| - 1], name, key);
      assert s == s[..|s| - 1] + [s[|s| - 1]];
    }
  }

  /** The roots of one name are distinct when the roots are. */
  lemma {:induction false} MatchingDistinct<T>(s: seq<T>, name: T -> string, key: string)
    requires DistinctSeq(s)
    ensures DistinctSeq(Matching(s, name, key))
    decreases |s|
  {
    if s != [] {
      var init, x := s[..|s| - 1], s[|s| - 1];
      assert DistinctSeq(init) by { forall i, j | 0 <= i < j < |init| ensures init[i] != init[j] { assert init[i] == s[i] && init[j] == s[j]; } }
      MatchingDistinct(init, name, key);
      MatchingMembers(init, name, key);
      if EqualsIgnoreCase(name(x), key) {
        assert x !in init by { forall i | 0 <= i < |init| ensures init[i] != x { assert init[i] == s[i]; } }
        DistinctSnoc(Matching(init, name, key), x);
      }
    }
  }

  lemma {:induction false} MatchingNone<T>(s: seq<T>, name: T -> string, key: string)
    requires forall k :: 0 <= k < |s| ==> !EqualsIgnoreCase(name(s[k]), key)
    ensures Matching(s, name, key) == []
    decreases |s|
  {
    if s != [] {
      MatchingNone(s[..|s| - 1], name, key);
    }
  }

  /** Members of a group: exactly the elements whose name matches its key, in order. */
  ghost predicate GroupsOf<T>(s: seq<T>, name: T -> string, gs: seq<Group<T>>) {
    (forall i, j :: 0 <= i < j < |gs| ==> !EqualsIgnoreCase(gs[i].key, gs[j].key))
    && (forall i :: 0 <= i < |gs| ==> gs[i].members != [] && name(gs[i].members[0]) == gs[i].key)
    && (forall i :: 0 <= i < |gs| ==> gs[i].members == Matching(s, name, gs[i].key))
    && (forall k :: 0 <= k < |s| ==> GroupIndex(gs, name(s[k])) >= 0)
  }

  lemma AddToGroupsKeys<T>(gs: seq<Group<T>>, x: T, name: T -> string)
    requires forall i, j :: 0 <= i < j < |gs| ==> !EqualsIgnoreCase(gs[i].key, gs[j].key)
    requires forall i :: 0 <= i < |gs| ==> gs[i].members != [] && name(gs[i].members[0]) == gs[i].key
    ensures var r := AddToGroups(gs, x, name);
      && (forall i, j :: 0 <= i < j < |r| ==> !EqualsIgnoreCase(r[i].key, r[j].key))
      && (forall i :: 0 <= i < |r| ==> r[i].members != [] && name(r[i].members[0]) == r[i].key)
      && |gs| <= |r| && (forall i :: 0 <= i < |gs| ==> r[i].key == gs[i].key)
  {
  }

  lemma AddToGroupsMembers<T>(init: seq<T>, x: T, name: T -> string, gs: seq<Group<T>>, j: int)
    requires GroupsOf(init, name, gs)
    requires 0 <= j < |AddToGroups(gs, x, name)|
    ensures AddToGroups(gs, x, name)[j].members == Matching(init + [x], name, AddToGroups(gs, x, name)[j].key)
  {
    var s := init + [x];
    assert s[..|s| - 1] == init;
    var r := AddToGroups(gs, x, name);
    var i := GroupIndex(gs, name(x));
    if j < |gs| {
      assert r[j].key == gs[j].key;
      if j != i {
        assert r[j] == gs[j];
        if i >= 0 {
          assert !EqualsIgnoreCase(gs[i].key, gs[j].key) || !EqualsIgnoreCase(gs[j].key, gs[i].key);
        }
      }
    } else {
      forall k | 0 <= k < |init| ensures !EqualsIgnoreCase(name(init[k]), name(x)) {
        var g := GroupIndex(gs, name(init[k]));
        assert EqualsIgnoreCase(gs[g].key, name(init[k]));
      }
      MatchingNone(init, name, name(x));
    }
  }

  lemma AddToGroupsCovers<T>(init: seq<T>, x: T, name: T -> string, gs: seq<Group<T>>)
    requires forall k :: 0 <= k < |init| ==> GroupIndex(gs, name(init[k])) >= 0
    ensures var s, r := init + [x], AddToGroups(gs, x, name);
      forall k :: 0 <= k < |s| ==> GroupIndex(r, name(s[k])) >= 0
  {
    var s, r := init + [x], AddToGroups(gs, x, name);
    var i := GroupIndex(gs, name(x));
    forall k | 0 <= k < |s| ensures GroupIndex(r, name(s[k])) >= 0 {
      if k < |init| {
        assert s[k] == init[k];
        var g := GroupIndex(gs, name(init[k]));
        assert r[g].key == gs[g].key;
      } else if i == -1 {
        assert r[|gs|].key == name(x);
      } else {
        assert r[i].key == gs[i].key;
      }
    }
  }

  /**
   * GroupBy partitions the roots: one group per name ignoring case, in order
   * of first appearance, each with exactly the roots of that name in their
   * order, keyed by the first one's name.
   */
  lemma {:induction false} GroupByGroups<T>(s: seq<T>, name: T -> string)
    ensures GroupsOf(s, name, GroupBy(s, name))
    decreases |s|
  {
    if s != [] {
      var init, x := s[..|s| - 1], s[|s| - 1];
      assert s == init + [x];
      var gs := GroupBy(init, name);
      GroupByGroups(init, name);
      AddToGroupsKeys(gs, x, name);
      AddToGroupsCovers(init, x, name, gs);
      forall j | 0 <= j < |GroupBy(s, name)|
        ensures GroupBy(s, name)[j].members == Matching(s, name, GroupBy(s, name)[j].key)
      {
        AddToGroupsMembers(init, x, name, gs, j);
      }
    }
  }

  /** A row of the grouped top level: a single root, or the group row of a name with several. */
  datatype TopRow<T> = Single(item: T) | Grouped(key: string, members: seq<T>)

  /** BuildGroupedTopLevel's list: a single for a group of one, the group row otherwise. */
  function TopRows<T>(gs: seq<Group<T>>): (r: seq<TopRow<T>>)
    requires forall i :: 0 <= i < |gs| ==> gs[i].members != []
    ensures |r| == |gs|
    ensures forall i :: 0 <= i < |gs| ==>
      r[i] == if |gs[i].members| <= 1 then Single(gs[i].members[0]) else Grouped(gs[i].key, gs[i].members)
  {
    seq(|gs|, i requires 0 <= i < |gs| && gs[i].members != [] =>
      if |gs[i].members| <= 1 then Single(gs[i].members[0]) else Grouped(gs[i].key, gs[i].members))
  }

  /** The roots a row of the grouped top level stands for. */
  function RowMembers<T>(row: TopRow<T>): seq<T> {
    if row.Single? then [row.item] else row.members
  }

  /** Each top-level row stands for its group's members: the roots of the group's name. */
  lemma TopRowsMembers<T>(s: seq<T>, name: T -> string, gs: seq<Group<T>>)
    requires GroupsOf(s, name, gs)
    ensures forall i :: 0 <= i < |gs| ==> RowMembers(TopRows(gs)[i]) == gs[i].members
    ensures forall i, x :: 0 <= i < |gs| ==> (x in gs[i].members <==> x in s && EqualsIgnoreCase(name(x), gs[i].key))
  {
    var r := TopRows(gs);
    forall i | 0 <= i < |gs| ensures RowMembers(r[i]) == gs[i].members {
      if |gs[i].members| <= 1 {
        assert gs[i].members == [gs[i].members[0]];
      }
    }
    forall i, x | 0 <= i < |gs| ensures x in gs[i].members <==> x in s && EqualsIgnoreCase(name(x), gs[i].key) {
      MatchingMembers(s, name, gs[i].key);
    }
  }

  /** Every root is under some top-level row, and every row's roots are roots. */
  lemma TopRowsCover<T>(s: seq<T>, name: T -> string, gs: seq<Group<T>>)
    requires GroupsOf(s, name, gs)
    ensures forall x :: x in s <==> exists i :: 0 <= i < |TopRows(gs)| && x in RowMembers(TopRows(gs)[i])
  {
    TopRowsMembers(s, name, gs);
    var parts := seq(|gs|, i requires 0 <= i < |gs| => RowMembers(TopRows(gs)[i]));
    forall k | 0 <= k < |s| ensures s[k] in parts[GroupIndex(gs, name(s[k]))] {
      var g := GroupIndex(gs, name(s[k]));
      assert s[k] in gs[g].members;
    }
    CoverOfParts(s, parts, (x: T) => GroupIndex(gs, name(x)));
  }

  /** Parts whose elements all come from s, and which hold each element of s at a chosen index, cover s exactly. */
  lemma CoverOfParts<T>(s: seq<T>, parts: seq<seq<T>>, place: T -> int)
    requires forall k :: 0 <= k < |s| ==> 0 <= place(s[k]) < |parts| && s[k] in parts[place(s[k])]
    requires forall i, x :: 0 <= i < |parts| && x in parts[i] ==> x in s
    ensures forall x :: x in s <==> exists i :: 0 <= i < |parts| && x in parts[i]
  {
    forall x | x in s ensures exists i :: 0 <= i < |parts| && x in parts[i] {
      var k :| 0 <= k < |s| && s[k] == x;
      assert x in parts[place(s[k])];
    }
  }

  /**
   * Over a grouping of the roots, the top-level rows cover the roots exactly
   * (TopRowsCover); a single row's root is the only root of its name, and a
   * group row holds at least two roots, all of its key's name, ignoring case.
   */
  lemma TopRowsPartition<T>(s: seq<T>, name: T -> string, gs: seq<Group<T>>)
    requires GroupsOf(s, name, gs)
    ensures forall x :: x in s <==> exists i :: 0 <= i < |TopRows(gs)| && x in RowMembers(TopRows(gs)[i])
    ensures forall i :: 0 <= i < |gs| && TopRows(gs)[i].Single? ==>
      forall x :: x in s && EqualsIgnoreCase(name(x), name(TopRows(gs)[i].item)) ==> x == TopRows(gs)[i].item
    ensures forall i :: 0 <= i < |gs| && TopRows(gs)[i].Grouped? ==>
      |TopRows(gs)[i].members| >= 2 && forall x :: x in TopRows(gs)[i].members ==> EqualsIgnoreCase(name(x), TopRows(gs)[i].key)
  {
    TopRowsCover(s, name, gs);
    TopRowsMembers(s, name, gs);
    var r := TopRows(gs);
    forall i | 0 <= i < |gs| && r[i].Single?
      ensures forall x :: x in s && EqualsIgnoreCase(name(x), name(r[i].item)) ==> x == r[i].item
    {
      assert r[i].item == gs[i].members[0] && name(r[i].item) == gs[i].key;
    }
  }

  /** The sum a group row gets from its members' aggregated values, CPU and GPU clamped. */
  function GroupMetrics(ms: seq<Metrics>): (m: Metrics)
    ensures 0.0 <= m.cpu <= 100.0 && 0.0 <= m.gpu <= 100.0
  {
    var s := SumMetrics(ms);
    Metrics(Clamp(s.cpu, 0.0, 100.0), s.mem, Clamp(s.gpu, 0.0, 100.0))
  }

  function SumMetrics(ms: seq<Metrics>): Metrics
    decreases |ms|
  {
    if ms == [] then Zero() else Plus(ms[0], SumMetrics(ms[1..]))
  }

  // -------------------------------------------------------------- sorting

  datatype SortColumn = NameColumn | CpuColumn | RamColumn | GpuColumn

  /** SetSort: the active column flips its direction; another becomes active, descending unless it is Name. */
  function NextSort(column: SortColumn, descending: bool, clicked: SortColumn): (r: (SortColumn, bool))
    ensures r.0 == clicked
  {
    if column == clicked then (column, !descending) else (clicked, clicked != NameColumn)
  }

  /** Clicking a column twice restores its direction; a new column then ends opposite to its default. */
  lemma NextSortTwice(column: SortColumn, descending: bool, clicked: SortColumn)
    ensures var once := NextSort(column, descending, clicked);
      NextSort(once.0, once.1, clicked) == if column == clicked then (column, descending) else (clicked, clicked == NameColumn)
    ensures NextSort(column, descending, clicked).1 == if column == clicked then !descending else clicked != NameColumn
  {
  }

  ghost predicate SortedAscending<T>(s: seq<T>, key: T -> real) {
    forall i, j :: 0 <= i < j < |s| ==> key(s[i]) <= key(s[j])
  }

  /** Sorted by the key in the chosen direction. */
  ghost predicate Ordered<T>(s: seq<T>, key: T -> real, descending: bool) {
    if descending then SortedDescending(s, key) else SortedAscending(s, key)
  }

  /** OrderBy or OrderByDescending, ThenBy the prior index: a stable sort in either direction. */
  function StableSort<T>(s: seq<T>, key: T -> real, descending: bool): (r: seq<T>)
    ensures multiset(r) == multiset(s) && |r| == |s|
    ensures Ordered(r, key, descending)
  {
    if descending then SortDescending(s, key)
    else
      var neg := (x: T) => -key(x);
      var r := SortDescending(s, neg);
      assert forall i, j :: 0 <= i < j < |r| ==> neg(r[i]) >= neg(r[j]);
      r
  }

  /** Ties under a key are ties under its negation. */
  lemma {:induction false} WithKeyNegated<T>(s: seq<T>, key: T -> real, neg: T -> real, k: real)
    requires forall x :: neg(x) == -key(x)
    ensures WithKey(s, neg, -k) == WithKey(s, key, k)
    decreases |s|
  {
    if s != [] { WithKeyNegated(s[1..], key, neg, k); }
  }

  /**
   * StableSort keeps the prior order among rows of equal key in either
   * direction: ThenBy the prior index decides every tie.
   */
  lemma StableSortStable<T>(s: seq<T>, key: T -> real, descending: bool, k: real)
    ensures WithKey(StableSort(s, key, descending), key, k) == WithKey(s, key, k)
  {
    if descending {
      SortDescendingStable(s, key, k);
    } else {
      var neg := (x: T) => -key(x);
      var r := SortDescending(s, neg);
      SortDescendingStable(s, neg, -k);
      WithKeyNegated(r, key, neg, k);
      WithKeyNegated(s, key, neg, k);
    }
  }

  /** The complement of a test. */
  function Not<T>(p: T -> bool): T -> bool {
    (x: T) => !p(x)
  }

  /** A filter and its complement split a sequence between them. */
  lemma {:induction false} FilterSplit<T>(s: seq<T>, p: T -> bool)
    ensures multiset(Filter(s, p)) + multiset(Filter(s, Not(p))) == multiset(s)
    decreases |s|
  {
    if s != [] {
      FilterSplit(s[1..], p);
      assert s == [s[0]] + s[1..];
    }
  }

  /** The sort of one list: the rows with a pinned subtree first, then the others, each part stably by key. */
  function PinnedFirst<T>(s: seq<T>, pinned: T -> bool, key: T -> real, descending: bool): (r: seq<T>)
  {
    StableSort(Filter(s, pinned), key, descending) + StableSort(Filter(s, Not(pinned)), key, descending)
  }

  /** The sort only rearranges the rows. */
  lemma PinnedFirstPermutes<T>(s: seq<T>, pinned: T -> bool, key: T -> real, descending: bool)
    ensures multiset(PinnedFirst(s, pinned, key, descending)) == multiset(s)
  {
    FilterSplit(s, pinned);
  }

  /** Two parts, the first all satisfying p and the second none: p holds exactly on the first part. */
  lemma SplitAt<T>(a: seq<T>, b: seq<T>, p: T -> bool)
    requires forall x :: x in a ==> p(x)
    requires forall x :: x in b ==> !p(x)
    ensures forall i :: 0 <= i < |a + b| ==> (p((a + b)[i]) <==> i < |a|)
  {
    forall i | 0 <= i < |a + b| ensures p((a + b)[i]) <==> i < |a| {
      if i < |a| { assert (a + b)[i] == a[i]; } else { assert (a + b)[i] == b[i - |a|]; }
    }
  }

  /** A sequence with the same elements as a filter by p has only elements satisfying p. */
  lemma AllSatisfy<T>(r: seq<T>, s: seq<T>, p: T -> bool)
    requires multiset(r) == multiset(Filter(s, p))
    ensures forall x :: x in r ==> p(x)
  {
    forall x | x in r ensures p(x) {
      assert x in multiset(Filter(s, p));
    }
  }

  /**
   * The sort only rearranges: the result is a permutation, every pinned row
   * comes before every other one, and each part is ordered by the key in the
   * chosen direction.
   */
  lemma PinnedFirstOrders<T>(s: seq<T>, pinned: T -> bool, key: T -> real, descending: bool)
    ensures var r, n := PinnedFirst(s, pinned, key, descending), |Filter(s, pinned)|;
      && multiset(r) == multiset(s)
      && (forall i :: 0 <= i < |r| ==> (pinned(r[i]) <==> i < n))
      && Ordered(r[..n], key, descending) && Ordered(r[n..], key, descending)
  {
    var sa, sb := StableSort(Filter(s, pinned), key, descending), StableSort(Filter(s, Not(pinned)), key, descending);
    FilterSplit(s, pinned);
    AllSatisfy(sa, s, pinned);
    AllSatisfy(sb, s, Not(pinned));
    SplitAt(sa, sb, pinned);
    assert (sa + sb)[..|sa|] == sa && (sa + sb)[|sa|..] == sb;
  }

  /** With the constant key of the Name column the prior order is kept within each part. */
  lemma NameKeyKeepsOrder<T>(s: seq<T>, pinned: T -> bool, descending: bool)
    ensures PinnedFirst(s, pinned, (x: T) => 0.0, descending) == Filter(s, pinned) + Filter(s, Not(pinned))
  {
    var zero := (x: T) => 0.0;
    var neg := (x: T) => -zero(x);
    var a, b := Filter(s, pinned), Filter(s, Not(pinned));
    SortDescendingOfSorted(a, zero);
    SortDescendingOfSorted(b, zero);
    SortDescendingOfSorted(a, neg);
    SortDescendingOfSorted(b, neg);
  }

  /** The weight of the new value in the moving average. */
  const SmoothAlpha: real := 0.35

  /**
   * GetSmoothed: NaN and the infinities count as 0; a row seen for the first
   * time starts at its current value; after that the average moves 35% of the
   * way to the current value.
   */
  function Smoothed(prev: Option<real>, current: Double): (next: real)
  {
    var cur := current.OrZero();
    var p := if prev.Some? then prev.value else cur;
    p * (1.0 - SmoothAlpha) + cur * SmoothAlpha
  }

  /** The average starts at the first value and then stays between the previous average and the new value. */
  lemma SmoothedBetween(prev: Option<real>, current: Double)
    ensures prev.None? ==> Smoothed(prev, current) == current.OrZero()
    ensures prev.Some? ==> Smoothed(prev, current) == 0.65 * prev.value + 0.35 * current.OrZero()
    ensures prev.Some? ==> Min(prev.value, current.OrZero()) <= Smoothed(prev, current) <= Max(prev.value, current.OrZero())
    ensures !current.Finite? ==> Smoothed(prev, current) == Smoothed(prev, Finite(0.0))
    ensures prev == Some(current.OrZero()) ==> Smoothed(prev, current) == current.OrZero()
  {
  }

  // ---------------------------------------------------------------- search

  /** What the filter reads of a top-level row: its name and its direct children's names. */
  datatype RowView<T> = RowView(row: T, name: string, childNames: seq<string>)

  predicate MatchesQuery<T>(v: RowView<T>, query: string) {
    ContainsIgnoreCase(v.name, query)
    || exists j :: 0 <= j < |v.childNames| && ContainsIgnoreCase(v.childNames[j], query)
  }

  /** The rows whose view passes the test, in order. */
  function KeepRows<T>(views: seq<RowView<T>>, keep: RowView<T> -> bool): (r: seq<T>)
    ensures |r| <= |views|
    decreases |views|
  {
    if views == [] then []
    else (if keep(views[0]) then [views[0].row] else []) + KeepRows(views[1..], keep)
  }

  function RowsOf<T>(views: seq<RowView<T>>): (r: seq<T>)
    ensures |r| == |views| && forall i :: 0 <= i < |views| ==> r[i] == views[i].row
  {
    seq(|views|, i requires 0 <= i < |views| => views[i].row)
  }

  ghost predicate KeptAt<T>(views: seq<RowView<T>>, keep: RowView<T> -> bool, i: int, x: T) {
    0 <= i < |views| && views[i].row == x && keep(views[i])
  }

  lemma {:induction false} KeepRowsMembers<T>(views: seq<RowView<T>>, keep: RowView<T> -> bool)
    ensures forall x :: x in KeepRows(views, keep) <==> exists i :: KeptAt(views, keep, i, x)
    decreases |views|
  {
    if views != [] {
      KeepRowsMembers(views[1..], keep);
      var head := if keep(views[0]) then [views[0].row] else [];
      assert KeepRows(views, keep) == head + KeepRows(views[1..], keep);
      forall x | x in KeepRows(views, keep) ensures exists i :: KeptAt(views, keep, i, x) {
        if x in head {
          assert KeptAt(views, keep, 0, x);
        } else {
          var i :| KeptAt(views[1..], keep, i, x);
          assert KeptAt(views, keep, i + 1, x);
        }
      }
      forall i, x | KeptAt(views, keep, i, x) ensures x in KeepRows(views, keep) {
        if i > 0 { assert KeptAt(views[1..], keep, i - 1, x); }
      }
    }
  }

  lemma {:induction false} KeepRowsAll<T>(views: seq<RowView<T>>, keep: RowView<T> -> bool)
    requires forall i :: 0 <= i < |views| ==> keep(views[i])
    ensures KeepRows(views, keep) == RowsOf(views)
    decreases |views|
  {
    if views != [] {
      KeepRowsAll(views[1..], keep);
      assert RowsOf(views) == [views[0].row] + RowsOf(views[1..]);
    }
  }

  /** The filter of a concatenation is the concatenation of the filters. */
  lemma {:induction false} KeepRowsAppend<T>(a: seq<RowView<T>>, b: seq<RowView<T>>, keep: RowView<T> -> bool)
    ensures KeepRows(a + b, keep) == KeepRows(a, keep) + KeepRows(b, keep)
    decreases |a|
  {
    if a == [] {
      assert a + b == b;
    } else {
      var ab := a + b;
      assert ab[0] == a[0];
      assert ab[1..] == a[1..] + b;
      var head := if keep(a[0]) then [a[0].row] else [];
      var ta, tb := KeepRows(a[1..], keep), KeepRows(b, keep);
      KeepRowsAppend(a[1..], b, keep);
      assert KeepRows(ab, keep) == head + (ta + tb);
      assert KeepRows(a, keep) == head + ta;
      assert head + (ta + tb) == (head + ta) + tb;
    }
  }

  /** One more row of the filter's input. */
  lemma KeepRowsSnoc<T>(views: seq<RowView<T>>, keep: RowView<T> -> bool, i: nat)
    requires i < |views|
    ensures KeepRows(views[..i + 1], keep) == KeepRows(views[..i], keep) + (if keep(views[i]) then [views[i].row] else [])
  {
    assert views[..i + 1] == views[..i] + [views[i]];
    KeepRowsAppend(views[..i], [views[i]], keep);
  }

  /** Rows of distinct rows keep them distinct. */
  lemma {:induction false} KeepRowsDistinct<T>(views: seq<RowView<T>>, keep: RowView<T> -> bool)
    requires DistinctSeq(RowsOf(views))
    ensures DistinctSeq(KeepRows(views, keep))
    decreases |views|
  {
    if views != [] {
      var tail := views[1..];
      assert RowsOf(tail) == RowsOf(views)[1..];
      KeepRowsDistinct(tail, keep);
      if keep(views[0]) {
        KeepRowsMembers(tail, keep);
        var t, x := KeepRows(tail, keep), views[0].row;
        forall y | y in t ensures y != x {
          var i :| KeptAt(tail, keep, i, y);
          assert RowsOf(views)[i + 1] == y && RowsOf(views)[0] == x;
        }
        forall i, j | 0 <= i < j < |[x] + t| ensures ([x] + t)[i] != ([x] + t)[j] {
          if i == 0 { assert ([x] + t)[j] == t[j - 1] && t[j - 1] in t; }
          else { assert ([x] + t)[i] == t[i - 1] && ([x] + t)[j] == t[j - 1]; }
        }
      }
    }
  }

  /** The filter's test: a blank query passes every row, otherwise the row must match it. */
  function ShownBy<T>(query: string): RowView<T> -> bool {
    (v: RowView<T>) => IsBlank(query) || MatchesQuery(v, query)
  }

  /** UpdateVisibleProcesses' list: every row when the query is blank, else the matching rows, in row order. */
  function VisibleRows<T>(views: seq<RowView<T>>, query: string): (r: seq<T>)
    ensures |r| <= |views|
  {
    KeepRows(views, ShownBy(query))
  }

  /**
   * A blank query shows every row; otherwise a row is shown exactly when its
   * own name or a direct child's name contains the query, ignoring case.
   */
  lemma VisibleRowsAre<T>(views: seq<RowView<T>>, query: string)
    ensures IsBlank(query) ==> VisibleRows(views, query) == RowsOf(views)
    ensures !IsBlank(query) ==> forall x :: x in VisibleRows(views, query) <==>
      exists i :: 0 <= i < |views| && views[i].row == x && MatchesQuery(views[i], query)
  {
    var keep := ShownBy<T>(query);
    KeepRowsMembers(views, keep);
    if IsBlank(query) {
      KeepRowsAll(views, keep);
    } else {
      forall x | x in VisibleRows(views, query)
        ensures exists i :: 0 <= i < |views| && views[i].row == x && MatchesQuery(views[i], query)
      {
        var i :| KeptAt(views, keep, i, x);
      }
      forall i | 0 <= i < |views| && MatchesQuery(views[i], query) ensures views[i].row in VisibleRows(views, query) {
        assert KeptAt(views, keep, i, views[i].row);
      }
    }
  }

  // ------------------------------------------------------------ top five

  /** RefreshTopProcesses: the first five rows in the active column's order. */
  function TopFive<T>(rows: seq<T>, key: T -> real, descending: bool): (r: seq<T>)
    ensures |r| == if |rows| < 5 then |rows| else 5
  {
    var sorted := StableSort(rows, key, descending);
    if |sorted| <= 5 then sorted else sorted[..5]
  }

  /** The five are rows of the table and none of the rows left out ranks above any of them. */
  lemma TopFiveAreTop<T>(rows: seq<T>, key: T -> real, descending: bool)
    ensures var sorted, r := StableSort(rows, key, descending), TopFive(rows, key, descending);
      && (forall i :: 0 <= i < |r| ==> r[i] in rows)
      && r == sorted[..|r|]
      && (forall i, j :: 0 <= i < |r| <= j < |sorted| ==>
            if descending then key(r[i]) >= key(sorted[j]) else key(r[i]) <= key(sorted[j]))
  {
    var sorted := StableSort(rows, key, descending);
    forall i | 0 <= i < |TopFive(rows, key, descending)| ensures TopFive(rows, key, descending)[i] in rows {
      assert sorted[i] in multiset(rows);
    }
  }

  /** The five are distinct when the rows are. */
  lemma TopFiveDistinct<T>(rows: seq<T>, key: T -> real, descending: bool)
    requires DistinctSeq(rows)
    ensures DistinctSeq(TopFive(rows, key, descending))
  {
    PermutationDistinct(rows, StableSort(rows, key, descending));
  }

  // --------------------------------------------------------- drive layout

  /** The system drive: the first one flagged IsSystemDisk, else the first, else none. */
  function SystemDriveIndex(drives: seq<SystemInfo.StorageInfo>): (k: int)
    ensures -1 <= k < |drives| && (k == -1 <==> drives == [])
    ensures (exists i :: 0 <= i < |drives| && drives[i].isSystemDisk) ==>
      drives[k].isSystemDisk && forall i :: 0 <= i < k ==> !drives[i].isSystemDisk
    ensures drives != [] && (forall i :: 0 <= i < |drives| ==> !drives[i].isSystemDisk) ==> k == 0
  {
    var isSys := (d: SystemInfo.StorageInfo) => d.isSystemDisk;
    FirstWhereIsFirst(drives, isSys);
    match FirstWhere(drives, isSys)
    case Some(k) => k
    case None => if drives == [] then -1 else 0
  }

  /** The even positions go to the left column, the odd ones to the right. */
  function LeftColumn<T>(others: seq<T>): (left: seq<T>)
    ensures |left| == (|others| + 1) / 2
    ensures forall i :: 0 <= i < |left| ==> left[i] == others[2 * i]
  {
    seq((|others| + 1) / 2, i requires 0 <= i < (|others| + 1) / 2 => others[2 * i])
  }

  function RightColumn<T>(others: seq<T>): (right: seq<T>)
    ensures |right| == |others| / 2
    ensures forall i :: 0 <= i < |right| ==> right[i] == others[2 * i + 1]
  {
    seq(|others| / 2, i requires 0 <= i < |others| / 2 => others[2 * i + 1])
  }

  /** The state UpdateDriveLayout sets. */
  datatype DriveLayout = DriveLayout(
    showTwoColumns: bool,
    systemDrive: Option<SystemInfo.StorageInfo>,
    showSystemRow: bool,
    left: seq<SystemInfo.StorageInfo>,
    right: seq<SystemInfo.StorageInfo>)

  /** The drives that go into the columns: all of them, or all but the system drive from five on. */
  function ColumnDrives(drives: seq<SystemInfo.StorageInfo>): (others: seq<SystemInfo.StorageInfo>)
  {
    var k := SystemDriveIndex(drives);
    if |drives| >= 5 then Filter(drives, (d: SystemInfo.StorageInfo) => d.id != drives[k].id) else drives
  }

  /**
   * UpdateDriveLayout: two columns from four drives when the setting says so,
   * else from five; the system drive has its own full-width row from five
   * drives on and is then left out of the columns.
   */
  function Layout(drives: seq<SystemInfo.StorageInfo>, atFour: bool): (l: DriveLayout)
  {
    var k := SystemDriveIndex(drives);
    var others := ColumnDrives(drives);
    DriveLayout(|drives| >= (if atFour then 4 else 5), if k >= 0 then Some(drives[k]) else None,
      |drives| >= 5, LeftColumn(others), RightColumn(others))
  }

  /**
   * Each column drive lands in exactly one column, alternating from the left;
   * from five drives on the system drive is in neither, and every other drive
   * is in one.
   */
  lemma LayoutColumns(drives: seq<SystemInfo.StorageInfo>, atFour: bool)
    ensures var l, others := Layout(drives, atFour), ColumnDrives(drives);
      && |l.left| + |l.right| == |others| && |l.right| <= |l.left| <= |l.right| + 1
      && (forall i :: 0 <= i < |others| ==> if i % 2 == 0 then l.left[i / 2] == others[i] else l.right[i / 2] == others[i])
      && (l.showSystemRow ==> forall d :: d in l.left + l.right ==> d.id != l.systemDrive.value.id)
      && (l.showSystemRow ==> forall i :: 0 <= i < |drives| && drives[i].id != l.systemDrive.value.id ==> drives[i] in others)
      && (!l.showSystemRow ==> others == drives)
  {
    var l, others := Layout(drives, atFour), ColumnDrives(drives);
    forall i | 0 <= i < |others| ensures if i % 2 == 0 then l.left[i / 2] == others[i] else l.right[i / 2] == others[i] {
      if i % 2 == 0 { assert 2 * (i / 2) == i; } else { assert 2 * (i / 2) + 1 == i; }
    }
    if l.showSystemRow {
      forall d | d in l.left + l.right ensures d.id != l.systemDrive.value.id {
        if d in l.left {
          var i :| 0 <= i < |l.left| && l.left[i] == d;
        } else {
          var i :| 0 <= i < |l.right| && l.right[i] == d;
        }
      }
    }
  }
}
