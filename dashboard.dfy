/**
 * The dashboard view model (ViewModels/DashboardViewModel.cs): the GPU and
 * drive lists with their two-column layout, and the process table. The
 * steps of one process refresh are separate methods over the class's
 * fields: keeping one ProcessModel per live pid (UpsertRecords,
 * PruneModels), writing the children of DashboardTree's plan into the
 * models (ReconcileParents, WriteAggregates), placing one group or one
 * single row of the grouping loop (PlaceRow), reconciling the top-level
 * list (ReconcileTopLevelOrder), sorting it by the smoothed value of the
 * active column (ApplySortOnly) and refreshing the filtered list and the
 * top five (RefreshDerived). FinishRefresh runs the last three in order;
 * the whole refresh is not one method here.
 */
module Dashboard {
  import opened Wrappers
  import opened Text
  import opened Numerics
  import opened Collections
  import opened ProcessModels
  import opened ProcessMonitor
  import opened DashboardTree
  import SystemInfo
  import Performance

  /** _minSortInterval: the shortest pause between two unforced sorts, in milliseconds. */
  const MinSortIntervalMs: int := 900

  /**
   * One turn of the loop of BuildGroupedTopLevel: the groups, the turn's
   * index, the rows written before it.
   */
  datatype Turn = Turn(gs: seq<Group<Node>>, i: int, desired: seq<ProcessModel>, steam: ProcessModel?, aggOf: Node -> Metrics)

  /** The non-null ones of two optional models. */
  function Present(a: ProcessModel?, b: ProcessModel?): (s: set<ProcessModel>)
    ensures (a != null ==> a in s) && (b != null ==> b in s) && forall m | m in s :: m == a || m == b
  {
    (if a != null then {a} else {}) + (if b != null then {b} else {})
  }

  /** SequenceEqual: the same length and each item Equals the item at its position. */
  function SequenceEqual<T>(t: seq<T>, s: seq<T>, eq: (T, T) -> bool): (r: bool)
    ensures r <==> Aligned(eq, t, s)
    decreases |t|
  {
    if |t| != |s| then false
    else if t == [] then true
    else
      var rest := SequenceEqual(t[1..], s[1..], eq);
      assert Aligned(eq, t, s) <==> eq(t[0], s[0]) && Aligned(eq, t[1..], s[1..]) by {
        if eq(t[0], s[0]) && Aligned(eq, t[1..], s[1..]) {
          forall k | 0 <= k < |s| ensures eq(t[k], s[k]) {
            if k > 0 { assert t[k] == t[1..][k - 1] && s[k] == s[1..][k - 1]; }
          }
        }
      }
      eq(t[0], s[0]) && rest
  }

  /**
   * UpdateCollection: nothing at all when the target already equals the
   * source item by item; otherwise the reconcile, which keeps the items some
   * source item equals and, when the matching is one-to-one, leaves the target
   * aligned with the source.
   */
  method UpdateCollection<T(==)>(target: Collection<T>, source: seq<T>, eq: (T, T) -> bool)
    modifies target
    ensures Aligned(eq, old(target.items), source) ==> target.items == old(target.items) && target.changes == old(target.changes)
    ensures forall x :: x in old(target.items) && Has(source, x, eq) ==> x in target.items
    ensures forall k :: 0 <= k < |target.items| ==> target.items[k] in old(target.items) || target.items[k] in source
    ensures OneToOne(eq, old(target.items), source) && Symmetric(eq, old(target.items), source) ==>
      Aligned(eq, target.items, source)
  {
    if SequenceEqual(target.items, source, eq) {
      return;
    }
    var completed := Reconcile(target, source, eq);
  }

  /** The column loop of UpdateDriveLayout: even positions to the left, odd ones to the right. */
  method SplitColumns<T>(others: seq<T>) returns (left: seq<T>, right: seq<T>)
    ensures left == LeftColumn(others) && right == RightColumn(others)
  {
    left, right := [], [];
    for i := 0 to |others|
      invariant |left| == (i + 1) / 2 && |right| == i / 2
      invariant forall j :: 0 <= j < |left| ==> left[j] == others[2 * j]
      invariant forall j :: 0 <= j < |right| ==> right[j] == others[2 * j + 1]
    {
      if i % 2 == 0 {
        left := left + [others[i]];
      } else {
        right := right + [others[i]];
      }
    }
  }

  /** The values a row shows. */
  function MetricsOf(m: ProcessModel): Metrics
    reads m`cpuPercent, m`memoryBytes, m`gpuPercent
  {
    Metrics(m.cpuPercent, m.memoryBytes, m.gpuPercent)
  }

  /** What the copy loop writes into the model of a pid besides the pid: a record's name and its clamped values. */
  datatype Copy = Copy(name: string, own: Metrics)

  function CopyOf(r: ProcessInfo): Copy {
    Copy(r.name, OwnOfRecord(r))
  }

  /** The model of `pid` holds the copy `c`. */
  ghost predicate Holds(m: ProcessModel, pid: int, c: Copy)
    reads m`processId, m`name, m`cpuPercent, m`memoryBytes, m`gpuPercent
  {
    m.processId == pid && m.name == c.name && MetricsOf(m) == c.own
  }

  /** The copies the loop has written after the first n records: a later record of a pid overwrites an earlier one. */
  function CopiesUpTo(items: seq<ProcessInfo>, n: nat): (c: map<int, Copy>)
    requires n <= |items|
  {
    if n == 0 then map[] else CopiesUpTo(items, n - 1)[items[n - 1].processId := CopyOf(items[n - 1])]
  }

  /** A pid among the first n records has been written by the loop. */
  lemma {:induction false} CopiesUpToCovers(items: seq<ProcessInfo>, n: nat, pid: int)
    requires n <= |items| && LatestIndex(items[..n], pid) >= 0
    ensures pid in CopiesUpTo(items, n)
    decreases n
  {
    var s := items[..n];
    assert s[n - 1] == items[n - 1];
    if items[n - 1].processId != pid {
      var t := items[..n - 1];
      assert s[..n - 1] == t;
      assert LatestIndex(s, pid) == LatestIndex(t, pid);
      CopiesUpToCovers(items, n - 1, pid);
    }
  }

  /** The copy of a pid after the first n records is that of its last record among them. */
  lemma {:induction false} CopiesUpToLatest(items: seq<ProcessInfo>, n: nat, pid: int)
    requires n <= |items| && pid in CopiesUpTo(items, n)
    ensures LatestIndex(items[..n], pid) >= 0
    ensures CopiesUpTo(items, n)[pid] == CopyOf(items[..n][LatestIndex(items[..n], pid)])
    decreases n
  {
    var s := items[..n];
    assert s[n - 1] == items[n - 1];
    if items[n - 1].processId != pid {
      var t := items[..n - 1];
      assert s[..n - 1] == t;
      CopiesUpToLatest(items, n - 1, pid);
      assert LatestIndex(s, pid) == LatestIndex(t, pid);
      assert s[LatestIndex(t, pid)] == t[LatestIndex(t, pid)];
    }
  }

  /**
   * After the whole sample the loop has written every live pid, and each
   * holds the name and the clamped values of the pid's last record.
   */
  lemma CopiesAreLatest(items: seq<ProcessInfo>)
    ensures CopiesUpTo(items, |items|).Keys == Live(items)
    ensures forall pid | pid in Live(items) :: CopiesUpTo(items, |items|)[pid] == Copy(NameOfPid(items, pid), OwnOfPid(items, pid))
  {
    assert items[..|items|] == items;
    forall pid | pid in Live(items) ensures pid in CopiesUpTo(items, |items|) {
      CopiesUpToCovers(items, |items|, pid);
    }
    forall pid | pid in CopiesUpTo(items, |items|) ensures pid in Live(items) {
      CopiesUpToLatest(items, |items|, pid);
    }
    forall pid | pid in Live(items) ensures CopiesUpTo(items, |items|)[pid] == Copy(NameOfPid(items, pid), OwnOfPid(items, pid)) {
      CopiesUpToLatest(items, |items|, pid);
    }
  }

  /**
   * The copy loop has kept the models of `before` and added the pids of
   * `seen`, and only those.
   */
  ghost predicate Extends(before: map<int, ProcessModel>, now: map<int, ProcessModel>, seen: map<int, Copy>) {
    now.Keys == before.Keys + seen.Keys && forall pid | pid in before :: now[pid] == before[pid]
  }

  /** Storing under p either the model already there or a new one keeps the map extending `before`. */
  lemma ExtendsStep(before: map<int, ProcessModel>, prev: map<int, ProcessModel>, now: map<int, ProcessModel>,
                    seen: map<int, Copy>, p: int, c: Copy)
    requires Extends(before, prev, seen) && p in now && now == prev[p := now[p]]
    requires p in prev ==> now[p] == prev[p]
    ensures Extends(before, now, seen[p := c])
  {
  }

  /** A list of known models without duplicates. */
  ghost predicate ListIn(s: seq<ProcessModel>, models: set<ProcessModel>) {
    DistinctSeq(s) && forall x :: x in s ==> x in models
  }

  /** Every model of the pid map and of the group map is known and was made for its entry. */
  ghost predicate MapsOkOf(byPid: map<int, ProcessModel>, byName: map<string, ProcessModel>, models: set<ProcessModel>) {
    && (forall pid | pid in byPid :: byPid[pid] in models && byPid[pid].key == PidRow(pid))
    && (forall k | k in byName :: byName[k] in models && byName[k].key == GroupRow(k))
  }

  /** The three top-level lists are not Children collections, and every model has its own Children. */
  ghost predicate SeparateOf(models: set<ProcessModel>, parentOf: map<Collection<ProcessModel>, ProcessModel>,
                             p: Collection<ProcessModel>, v: Collection<ProcessModel>, t: Collection<ProcessModel>) {
    && p !in parentOf && v !in parentOf && t !in parentOf
    && (forall m | m in models :: m.children in parentOf && parentOf[m.children] == m)
  }

  /** A model made for a new pid keeps every model of the maps made for its entry. */
  lemma AddPidKeepsMaps(byPid: map<int, ProcessModel>, byName: map<string, ProcessModel>, models: set<ProcessModel>,
                        pid: int, m: ProcessModel)
    requires MapsOkOf(byPid, byName, models) && m.key == PidRow(pid)
    ensures MapsOkOf(byPid[pid := m], byName, models + {m})
  {
  }

  /** The maps stay well made when more models become known. */
  lemma MapsOkGrows(byPid: map<int, ProcessModel>, byName: map<string, ProcessModel>, models: set<ProcessModel>,
                    more: set<ProcessModel>)
    requires MapsOkOf(byPid, byName, models)
    ensures MapsOkOf(byPid, byName, models + more)
  {
  }

  /** A list of known models stays one when more models become known. */
  lemma ListInGrows(s: seq<ProcessModel>, models: set<ProcessModel>, more: set<ProcessModel>)
    requires ListIn(s, models)
    ensures ListIn(s, models + more)
  {
  }

  /** A new model with a new Children collection keeps the collections apart. */
  lemma AddKeepsSeparate(models: set<ProcessModel>, parentOf: map<Collection<ProcessModel>, ProcessModel>,
                         p: Collection<ProcessModel>, v: Collection<ProcessModel>, t: Collection<ProcessModel>, m: ProcessModel)
    requires SeparateOf(models, parentOf, p, v, t) && m.children !in parentOf
    requires m.children != p && m.children != v && m.children != t
    ensures SeparateOf(models + {m}, parentOf[m.children := m], p, v, t)
  {
  }

  /** The pid map with the pids of `live` only. */
  function KeepPids(byPid: map<int, ProcessModel>, live: set<int>): (r: map<int, ProcessModel>)
    ensures r.Keys == byPid.Keys * live && forall pid | pid in r :: r[pid] == byPid[pid]
  {
    map pid | pid in byPid && pid in live :: byPid[pid]
  }

  /** Dropping pids from the pid map keeps every remaining model made for its entry. */
  lemma KeepPidsKeepsMaps(byPid: map<int, ProcessModel>, byName: map<string, ProcessModel>, models: set<ProcessModel>,
                          live: set<int>)
    requires MapsOkOf(byPid, byName, models)
    ensures MapsOkOf(KeepPids(byPid, live), byName, models)
  {
  }

  // ------------------------------------------------------------ tree rows

  /** A row of the desired tree has a model: a pid's in the pid map, the synthetic group's once it is made. */
  predicate Resolves(byPid: map<int, ProcessModel>, steam: ProcessModel?, n: Node) {
    if n.Proc? then n.pid in byPid else steam != null
  }

  /** The model of a row of the desired tree. */
  function RowModel(byPid: map<int, ProcessModel>, steam: ProcessModel?, n: Node): (m: ProcessModel)
    requires Resolves(byPid, steam, n)
  {
    if n.Proc? then byPid[n.pid] else steam
  }

  /** The models of a list of rows, in order: the desired list handed to a reconcile. */
  function RowModels(byPid: map<int, ProcessModel>, steam: ProcessModel?, ns: seq<Node>): (ms: seq<ProcessModel>)
    requires forall n | n in ns :: Resolves(byPid, steam, n)
    ensures |ms| == |ns| && forall i :: 0 <= i < |ns| ==> ms[i] == RowModel(byPid, steam, ns[i])
  {
    seq(|ns|, i requires 0 <= i < |ns| => RowModel(byPid, steam, ns[i]))
  }

  /** Each model was made for its row: the pid rows for their pids, the synthetic group for itself. */
  ghost predicate Keyed(byPid: map<int, ProcessModel>, steam: ProcessModel?) {
    (forall pid | pid in byPid :: byPid[pid].key == PidRow(pid)) && (steam != null ==> steam.key == SteamGroupRow)
  }

  /** Different rows have different models. */
  lemma RowModelInjective(byPid: map<int, ProcessModel>, steam: ProcessModel?, a: Node, b: Node)
    requires Keyed(byPid, steam) && Resolves(byPid, steam, a) && Resolves(byPid, steam, b)
    requires RowModel(byPid, steam, a) == RowModel(byPid, steam, b)
    ensures a == b
  {
    if a.Proc? { assert RowModel(byPid, steam, a).key == PidRow(a.pid); }
    if b.Proc? { assert RowModel(byPid, steam, b).key == PidRow(b.pid); }
  }

  /** A list of rows without duplicates resolves to a list of models without duplicates. */
  lemma RowModelsDistinct(byPid: map<int, ProcessModel>, steam: ProcessModel?, ns: seq<Node>)
    requires Keyed(byPid, steam) && (forall n | n in ns :: Resolves(byPid, steam, n)) && DistinctSeq(ns)
    ensures DistinctSeq(RowModels(byPid, steam, ns))
  {
    var ms := RowModels(byPid, steam, ns);
    forall i, j | 0 <= i < j < |ms| ensures ms[i] != ms[j] {
      if ms[i] == ms[j] {
        RowModelInjective(byPid, steam, ns[i], ns[j]);
      }
    }
  }

  /** The models of rows are known when the pid map's models and the synthetic group are. */
  lemma RowModelsKnown(byPid: map<int, ProcessModel>, steam: ProcessModel?, ns: seq<Node>, models: set<ProcessModel>)
    requires (forall n | n in ns :: Resolves(byPid, steam, n)) && DistinctSeq(RowModels(byPid, steam, ns))
    requires (forall pid | pid in byPid :: byPid[pid] in models) && (steam != null ==> steam in models)
    ensures ListIn(RowModels(byPid, steam, ns), models)
  {
    var ms := RowModels(byPid, steam, ns);
    forall x | x in ms ensures x in models {
      var i :| 0 <= i < |ms| && ms[i] == x;
      assert ns[i] in ns;
    }
  }

  /**
   * A plan fits the models when its pid rows are exactly the pid map's keys,
   * no list repeats a row, and the synthetic group has a model exactly when
   * the plan has one.
   */
  ghost predicate Fits(p: Plan, byPid: map<int, ProcessModel>, steam: ProcessModel?) {
    Sound(p, byPid.Keys) && (p.steam.Some? <==> steam != null)
  }

  /**
   * The parents the children reconcile visits, as the set it builds
   * enumerates them: the desired-children keys in insertion order, then the
   * other models of the pid map in its order.
   */
  function ParentOrder(p: Plan, order: seq<int>): (ps: seq<Node>)
    ensures forall n | n in ps :: n in p.children.parents || (n.Proc? && n.pid in order)
  {
    var rest := Filter(PidNodes(order), (n: Node) => n !in p.children.kids);
    assert forall n | n in rest :: n.Proc? && n.pid in order by {
      forall n | n in rest ensures n.Proc? && n.pid in order {
        var k :| 0 <= k < |PidNodes(order)| && PidNodes(order)[k] == n;
      }
    }
    p.children.parents + rest
  }

  /** Every row the children reconcile visits, and every row of its desired list, has a model; the list has no duplicates. */
  lemma FitsResolves(p: Plan, byPid: map<int, ProcessModel>, steam: ProcessModel?, order: seq<int>, n: Node)
    requires Fits(p, byPid, steam) && (forall pid | pid in order :: pid in byPid) && n in ParentOrder(p, order)
    ensures Resolves(byPid, steam, n) && (forall k | k in KidsOf(p, n) :: Resolves(byPid, steam, k)) && DistinctSeq(KidsOf(p, n))
  {
  }

  /** The models of the pid map. */
  function PidModels(byPid: map<int, ProcessModel>): (s: set<ProcessModel>)
    ensures forall pid | pid in byPid :: byPid[pid] in s
  {
    set pid | pid in byPid :: byPid[pid]
  }

  /** A model made with an empty Children collection. */
  method NewModel(ghost key: RowKey) returns (m: ProcessModel)
    ensures fresh(m) && fresh(m.children) && m.children.items == [] && m.key == key && m.processId == 0
  {
    m := new ProcessModel(key);
  }

  /** The aggregated values of some rows, in order. */
  function AggsOf(aggOf: Node -> Metrics, ns: seq<Node>): (ms: seq<Metrics>)
    ensures |ms| == |ns| && forall i | 0 <= i < |ns| :: ms[i] == aggOf(ns[i])
  {
    seq(|ns|, i requires 0 <= i < |ns| => aggOf(ns[i]))
  }

  /** Summing one more row adds its values to the sum so far. */
  lemma {:induction false} SumMetricsSnoc(ms: seq<Metrics>, m: Metrics)
    ensures SumMetrics(ms + [m]) == Plus(SumMetrics(ms), m)
    decreases |ms|
  {
    if ms == [] {
      assert [m][1..] == [];
    } else {
      assert (ms + [m])[1..] == ms[1..] + [m];
      SumMetricsSnoc(ms[1..], m);
    }
  }

  /** The names of the groups, upper-cased: the names seenNames holds ignoring case. */
  function UpperKeys(gs: seq<Group<Node>>): set<string>
    decreases |gs|
  {
    if gs == [] then {} else UpperKeys(gs[..|gs| - 1]) + {ToUpper(gs[|gs| - 1].key)}
  }

  /** The upper-cased names of the groups of more than one root: the names that get a group row. */
  function GroupedKeys(gs: seq<Group<Node>>): set<string>
    decreases |gs|
  {
    if gs == [] then {}
    else GroupedKeys(gs[..|gs| - 1]) + (if |gs[|gs| - 1].members| > 1 then {ToUpper(gs[|gs| - 1].key)} else {})
  }

  /**
   * The names _groupModelsByName holds after BuildGroupedTopLevel: every
   * name with several roots, and every name it held before that still has a
   * root, even one root only.
   */
  lemma GroupNamesAfter(before: set<string>, gs: seq<Group<Node>>)
    ensures (before + GroupedKeys(gs)) * UpperKeys(gs) == GroupedKeys(gs) + before * UpperKeys(gs)
  {
    GroupedKeysUpper(gs);
  }

  /** UpperKeys holds exactly the upper-cased names of the groups. */
  lemma {:induction false} UpperKeysMembers(gs: seq<Group<Node>>, k: string)
    ensures k in UpperKeys(gs) <==> exists j | 0 <= j < |gs| :: ToUpper(gs[j].key) == k
    decreases |gs|
  {
    if gs != [] {
      var init := gs[..|gs| - 1];
      UpperKeysMembers(init, k);
      if k in UpperKeys(init) {
        var j :| 0 <= j < |init| && ToUpper(init[j].key) == k;
        assert gs[j] == init[j];
      }
      if j :| 0 <= j < |gs| && ToUpper(gs[j].key) == k {
        if j < |init| { assert init[j] == gs[j]; }
      }
    }
  }

  /** GroupedKeys holds exactly the upper-cased names of the groups of more than one root. */
  lemma {:induction false} GroupedKeysMembers(gs: seq<Group<Node>>, k: string)
    ensures k in GroupedKeys(gs) <==> exists j | 0 <= j < |gs| :: |gs[j].members| > 1 && ToUpper(gs[j].key) == k
    decreases |gs|
  {
    if gs != [] {
      var init := gs[..|gs| - 1];
      GroupedKeysMembers(init, k);
      if k in GroupedKeys(init) {
        var j :| 0 <= j < |init| && |init[j].members| > 1 && ToUpper(init[j].key) == k;
        assert gs[j] == init[j];
      }
      if j :| 0 <= j < |gs| && |gs[j].members| > 1 && ToUpper(gs[j].key) == k {
        if j < |init| { assert init[j] == gs[j]; }
      }
    }
  }

  /** Only the names of groups get group rows. */
  lemma {:induction false} GroupedKeysUpper(gs: seq<Group<Node>>)
    ensures GroupedKeys(gs) <= UpperKeys(gs)
    decreases |gs|
  {
    if gs != [] { GroupedKeysUpper(gs[..|gs| - 1]); }
  }

  // ------------------------------------------------------------ sort gate

  /** ApplySortOnly's gate: whether the sort runs, and _lastSortApplyUtc after it. */
  datatype Gate = Gate(runs: bool, last: Option<int>)

  /**
   * The throttle at the head of ApplySortOnly: a forced sort runs and leaves
   * the clock alone; an unforced one is skipped while the user interacts or
   * within 900 ms of the last recorded one, and otherwise records the time.
   */
  function Throttle(force: bool, suppress: bool, last: Option<int>, now: int): Gate
  {
    if force then Gate(true, last)
    else if suppress then Gate(false, last)
    else if last.Some? && now - last.value < MinSortIntervalMs then Gate(false, last)
    else Gate(true, Some(now))
  }

  /**
   * A forced sort always runs and keeps the clock; an unforced one never runs
   * during interaction, runs exactly when no sort was recorded or 900 ms have
   * passed, and then records the time.
   */
  lemma ThrottleGates(force: bool, suppress: bool, last: Option<int>, now: int)
    ensures force ==> Throttle(force, suppress, last, now) == Gate(true, last)
    ensures !force && suppress ==> Throttle(force, suppress, last, now) == Gate(false, last)
    ensures !force && !suppress ==>
      (Throttle(force, suppress, last, now).runs <==> last.None? || now - last.value >= MinSortIntervalMs)
    ensures !force && Throttle(force, suppress, last, now).runs ==> Throttle(force, suppress, last, now).last == Some(now)
  {
  }

  /** Two unforced sorts that both run are at least 900 ms apart; forced sorts between them do not matter. */
  lemma ThrottleSpacing(s1: bool, s2: bool, forced: nat, last: Option<int>, t1: int, t2: int)
    requires Throttle(false, s1, last, t1).runs
    ensures var l := Forced(forced, Throttle(false, s1, last, t1).last);
      Throttle(false, s2, l, t2).runs ==> t2 - t1 >= MinSortIntervalMs
  {
    ForcedKeepsClock(forced, Some(t1));
  }

  /** The clock after n forced sorts. */
  function Forced(n: nat, last: Option<int>): Option<int>
  {
    if n == 0 then last else Throttle(true, false, Forced(n - 1, last), 0).last
  }

  lemma {:induction false} ForcedKeepsClock(n: nat, last: Option<int>)
    ensures Forced(n, last) == last
  {
    if n > 0 { ForcedKeepsClock(n - 1, last); }
  }

  // ------------------------------------------------------ sort keys

  /** The three moving-average maps of ApplySortOnly. */
  datatype Smoothing = CpuSmoothing | MemSmoothing | GpuSmoothing

  /** The map a column's key smooths through; the Name column's key is the constant 0 and smooths nothing. */
  function SmoothingOf(column: SortColumn): Option<Smoothing>
  {
    match column
    case NameColumn => None
    case CpuColumn => Some(CpuSmoothing)
    case RamColumn => Some(MemSmoothing)
    case GpuColumn => Some(GpuSmoothing)
  }

  /** The figure GetSmoothed is given for a row: m.CpuPercent, m.MemoryBytes or m.GpuPercent. */
  function Figure(k: Smoothing, m: ProcessModel): real
    reads m
  {
    match k
    case CpuSmoothing => m.cpuPercent
    case MemSmoothing => m.memoryBytes as real
    case GpuSmoothing => m.gpuPercent
  }

  /** Dictionary.TryGetValue. */
  function Stored(a: map<ProcessModel, real>, m: ProcessModel): Option<real>
  {
    if m in a then Some(a[m]) else None
  }

  /** The moving average GetSmoothed computes for each of the rows from the averages `a`. */
  ghost function Averaged(a: map<ProcessModel, real>, k: Smoothing, rows: seq<ProcessModel>): map<ProcessModel, real>
    reads set m | m in rows
  {
    map m | m in rows :: Smoothed(Stored(a, m), Finite(Figure(k, m)))
  }

  /** Writing an entry into a map overridden by another is writing it into the other. */
  lemma UpdateOverride(a: map<ProcessModel, real>, b: map<ProcessModel, real>, m: ProcessModel, v: real)
    ensures (a + b)[m := v] == a + b[m := v]
  {
  }

  /** A sort key given by a table of keys, 0 for a row outside it. */
  function KeyOf(keys: map<ProcessModel, real>): ProcessModel -> real
  {
    (m: ProcessModel) => if m in keys then keys[m] else 0.0
  }

  /** Membership of a set, as a test. */
  function InSet(s: set<ProcessModel>): ProcessModel -> bool
  {
    (m: ProcessModel) => m in s
  }

  /** RefreshTopProcesses' key: the name's place in the culture's order under Name, else the raw figure (not the average). */
  function RawKey(column: SortColumn, nameRank: string -> real, m: ProcessModel): real
    reads m
  {
    match column
    case NameColumn => nameRank(m.name)
    case CpuColumn => m.cpuPercent
    case RamColumn => m.memoryBytes as real
    case GpuColumn => m.gpuPercent
  }

  /** The names of a list of rows. */
  function Names(ms: seq<ProcessModel>): (r: seq<string>)
    reads set m | m in ms
    ensures |r| == |ms| && forall j :: 0 <= j < |ms| ==> r[j] == ms[j].name
  {
    if ms == [] then [] else [ms[0].name] + Names(ms[1..])
  }

  /** Clear followed by one Add per row, in order. */
  method Refill<T(==)>(target: Collection<T>, rows: seq<T>)
    modifies target
    ensures target.items == rows && target.changes == old(target.changes) + 1 + |rows|
  {
    target.Clear();
    for i := 0 to |rows|
      invariant target.items == rows[..i]
      invariant target.changes == old(target.changes) + 1 + i
    {
      target.Add(rows[i]);
    }
    assert rows[..|rows|] == rows;
  }

  /**
   * The query test of one top-level row: its own name, then its children's
   * names until one contains the query, ignoring case.
   */
  method RowMatches<T>(v: RowView<T>, query: string) returns (r: bool)
    ensures r == MatchesQuery(v, query)
  {
    if ContainsIgnoreCase(v.name, query) {
      return true;
    }
    r := false;
    var j := 0;
    while j < |v.childNames|
      invariant 0 <= j <= |v.childNames| && !r
      invariant forall k :: 0 <= k < j ==> !ContainsIgnoreCase(v.childNames[k], query)
    {
      if ContainsIgnoreCase(v.childNames[j], query) {
        r := true;
        break;
      }
      j := j + 1;
    }
  }

  /** The foreach over the top-level rows, adding each one that matches. */
  method MatchingRows<T>(views: seq<RowView<T>>, query: string) returns (desired: seq<T>)
    requires !IsBlank(query)
    ensures desired == VisibleRows(views, query)
  {
    ghost var keep := ShownBy<T>(query);
    desired := [];
    for i := 0 to |views|
      invariant desired == KeepRows(views[..i], keep)
    {
      var matched := RowMatches(views[i], query);
      KeepRowsSnoc(views, keep, i);
      assert keep(views[i]) == matched;
      if matched {
        desired := desired + [views[i].row];
      }
    }
    assert views[..|views|] == views;
  }
  class DashboardViewModel {
    /** _modelsByPid: the model of each pid of the last sample. */
    var modelsByPid: map<int, ProcessModel>
    /** _groupModelsByName: the group row of each name, keyed ignoring case (by the upper-case name). */
    var groupModelsByName: map<string, ProcessModel>
    const processes: Collection<ProcessModel>
    const visibleProcesses: Collection<ProcessModel>
    const topProcesses: Collection<ProcessModel>
    var selectedProcess: ProcessModel?
    var sortColumn: SortColumn
    var sortDescending: bool
    var searchQuery: string
    var suppressSortDueToInteraction: bool
    /** _lastSortApplyUtc in milliseconds; None stands for DateTime.MinValue. */
    var lastSortApplyMs: Option<int>
    /** _smoothedCpu, _smoothedMem, _smoothedGpu: the moving average of each row. */
    var smoothedCpu: map<ProcessModel, real>
    var smoothedMem: map<ProcessModel, real>
    var smoothedGpu: map<ProcessModel, real>
    var groupSameNames: bool
    var lastProcessItems: seq<ProcessInfo>
    const gpus: Collection<SystemInfo.GpuInfo>
    const drives: Collection<SystemInfo.StorageInfo>
    const drivesLeft: Collection<SystemInfo.StorageInfo>
    const drivesRight: Collection<SystemInfo.StorageInfo>
    var showTwoColumnDrives: bool
    var systemDrive: Option<SystemInfo.StorageInfo>
    var showSystemDriveFullRow: bool
    /** The current culture's order of names, which OrderBy(m => m.Name) uses. */
    const nameRank: string -> real
    /** Every model this view model has made. */
    ghost var Models: set<ProcessModel>
    /** The model each Children collection belongs to. */
    ghost var parentOf: map<Collection<ProcessModel>, ProcessModel>

    /** The Children collections of the models. */
    ghost function Kids(): set<Collection<ProcessModel>>
      reads this
    {
      set m | m in Models :: m.children
    }

    ghost predicate CollectionsDistinct()
    {
      && processes != visibleProcesses && processes != topProcesses && visibleProcesses != topProcesses
      && drives != drivesLeft && drives != drivesRight && drivesLeft != drivesRight
    }

    /** Every Children collection lists known models, each once. */
    ghost predicate ChildListsOk()
      reads this, Kids()
    {
      forall m | m in Models :: ListIn(m.children.items, Models)
    }

    /**
     * The object structure: separate collections, one model per pid and per
     * group name, and lists of known models without duplicates.
     */
    ghost predicate Valid()
      reads this, Kids(), processes, visibleProcesses, topProcesses
    {
      && CollectionsDistinct()
      && SeparateOf(Models, parentOf, processes, visibleProcesses, topProcesses)
      && MapsOkOf(modelsByPid, groupModelsByName, Models)
      && ChildListsOk()
      && ListIn(processes.items, Models) && ListIn(visibleProcesses.items, Models) && ListIn(topProcesses.items, Models)
    }

    /**
     * The state the field initialisers give: empty lists and maps, sorting by
     * CPU descending, grouping on, nothing selected, no sort applied yet.
     */
    ghost predicate Initial()
      reads this, processes, visibleProcesses, topProcesses, gpus, drives, drivesLeft, drivesRight
    {
      && modelsByPid == map[] && groupModelsByName == map[] && Models == {} && parentOf == map[]
      && processes.items == [] && visibleProcesses.items == [] && topProcesses.items == []
      && gpus.items == [] && drives.items == [] && drivesLeft.items == [] && drivesRight.items == []
      && selectedProcess == null && sortColumn == CpuColumn && sortDescending && searchQuery == ""
      && !suppressSortDueToInteraction && lastSortApplyMs == None
      && smoothedCpu == map[] && smoothedMem == map[] && smoothedGpu == map[]
      && groupSameNames && lastProcessItems == []
      && !showTwoColumnDrives && systemDrive == None && !showSystemDriveFullRow
    }

    constructor (nameRank: string -> real)
      ensures Initial() && CollectionsDistinct() && this.nameRank == nameRank
    {
      var p := new Collection();
      var v := new Collection();
      var t := new Collection();
      var g := new Collection();
      var d := new Collection();
      var l := new Collection();
      var r := new Collection();
      processes, visibleProcesses, topProcesses := p, v, t;
      gpus, drives, drivesLeft, drivesRight := g, d, l, r;
      Models, parentOf := {}, map[];
      modelsByPid, groupModelsByName := map[], map[];
      selectedProcess := null;
      sortColumn, sortDescending, searchQuery := CpuColumn, true, "";
      suppressSortDueToInteraction, lastSortApplyMs := false, None;
      smoothedCpu, smoothedMem, smoothedGpu := map[], map[], map[];
      groupSameNames, lastProcessItems := true, [];
      showTwoColumnDrives, systemDrive, showSystemDriveFullRow := false, None, false;
      this.nameRank := nameRank;
    }

    /** The initial state is a valid one. */
    lemma InitialIsValid()
      requires Initial() && CollectionsDistinct()
      ensures Valid()
    {
      assert Kids() == {};
    }

    // ------------------------------------------------------------ selection

    /**
     * The SelectedProcess setter: on a change the previous row is deselected
     * and the new one selected; setting the current value does nothing.
     */
    method SetSelectedProcess(value: ProcessModel?)
      modifies this`selectedProcess, Present(selectedProcess, value)`isSelected, Present(selectedProcess, value)`notified
      ensures selectedProcess == value
      ensures old(selectedProcess) != value ==>
        (old(selectedProcess) != null ==> !old(selectedProcess).isSelected) && (value != null ==> value.isSelected)
      ensures old(selectedProcess) == value ==> unchanged(Present(value, null))
    {
      if selectedProcess == value {
        return;
      }
      var previous := selectedProcess;
      selectedProcess := value;
      if previous != null {
        previous.SetIsSelected(false);
      }
      if value != null {
        value.SetIsSelected(true);
      }
    }

    /** ToggleProcessSelection: selecting the selected row clears the selection, any other row becomes selected. */
    method ToggleProcessSelection(model: ProcessModel?)
      modifies this`selectedProcess, Present(selectedProcess, model)`isSelected, Present(selectedProcess, model)`notified
      ensures model == null ==> selectedProcess == old(selectedProcess) && unchanged(Present(old(selectedProcess), null))
      ensures model != null && old(selectedProcess) == model ==> selectedProcess == null && !model.isSelected
      ensures model != null && old(selectedProcess) != model ==>
        selectedProcess == model && model.isSelected && (old(selectedProcess) != null ==> !old(selectedProcess).isSelected)
    {
      if model == null {
        return;
      }
      if selectedProcess == model {
        SetSelectedProcess(null);
      } else {
        SetSelectedProcess(model);
      }
    }

    // ------------------------------------------------------------- drives

    /**
     * UpdateDriveLayout: the layout flags and the system drive of Layout, and
     * the two columns brought to its left and right lists.
     */
    method UpdateDriveLayout(ds: seq<SystemInfo.StorageInfo>, atFour: bool)
      requires drivesLeft != drivesRight
      modifies this`showTwoColumnDrives, this`systemDrive, this`showSystemDriveFullRow, drivesLeft, drivesRight
      ensures var l := Layout(ds, atFour);
        && showTwoColumnDrives == l.showTwoColumns && systemDrive == l.systemDrive && showSystemDriveFullRow == l.showSystemRow
        && (Aligned(SystemInfo.StorageEquals, old(drivesLeft.items), l.left) ==> drivesLeft.items == old(drivesLeft.items) && drivesLeft.changes == old(drivesLeft.changes))
        && (Aligned(SystemInfo.StorageEquals, old(drivesRight.items), l.right) ==> drivesRight.items == old(drivesRight.items) && drivesRight.changes == old(drivesRight.changes))
        && (OneToOne(SystemInfo.StorageEquals, old(drivesLeft.items), l.left) ==> Aligned(SystemInfo.StorageEquals, drivesLeft.items, l.left))
        && (OneToOne(SystemInfo.StorageEquals, old(drivesRight.items), l.right) ==> Aligned(SystemInfo.StorageEquals, drivesRight.items, l.right))
    {
      showTwoColumnDrives := |ds| >= (if atFour then 4 else 5);
      var k := SystemDriveIndex(ds);
      systemDrive := if k >= 0 then Some(ds[k]) else None;
      var showTop := |ds| >= 5;
      showSystemDriveFullRow := showTop;
      var left, right := SplitColumns(ColumnDrives(ds));
      Performance.EqualsSymmetric([], [], drivesLeft.items, left);
      UpdateCollection(drivesLeft, left, SystemInfo.StorageEquals);
      Performance.EqualsSymmetric([], [], drivesRight.items, right);
      UpdateCollection(drivesRight, right, SystemInfo.StorageEquals);
    }

    // ---------------------------------------------------------- processes

    /** A new model stored under a pid that has none. */
    method AddModel(pid: int) returns (m: ProcessModel)
      requires Valid() && pid !in modelsByPid
      modifies this`modelsByPid, this`Models, this`parentOf
      ensures Valid() && fresh(m) && modelsByPid == old(modelsByPid)[pid := m] && Models == old(Models) + {m}
    {
      m := AddRow(PidRow(pid));
      AddPidKeepsMaps(modelsByPid, groupModelsByName, Models, pid, m);
      modelsByPid := modelsByPid[pid := m];
    }

    /**
     * One pass of the copy loop: the model stored under the record's pid, or
     * a new one stored there, takes the record's pid, name and values, CPU and
     * GPU clamped to [0, 100]. The models of the other pids keep what the
     * records seen so far gave them.
     */
    method CopyRecord(r: ProcessInfo, ghost seen: map<int, Copy>) returns (ghost added: set<ProcessModel>)
      requires Valid()
      requires forall q | q in seen :: q in modelsByPid && Holds(modelsByPid[q], q, seen[q])
      modifies this`modelsByPid, this`Models, this`parentOf, if r.processId in modelsByPid then {modelsByPid[r.processId]} else {}
      ensures Valid() && Models == old(Models) + added && fresh(added)
      ensures r.processId in modelsByPid && modelsByPid == old(modelsByPid)[r.processId := modelsByPid[r.processId]]
      ensures r.processId in old(modelsByPid) ==> modelsByPid[r.processId] == old(modelsByPid)[r.processId]
      ensures forall q | q in seen[r.processId := CopyOf(r)] :: q in modelsByPid && Holds(modelsByPid[q], q, seen[r.processId := CopyOf(r)][q])
    {
      var p := r.processId;
      var m;
      if p in modelsByPid {
        m := modelsByPid[p];
        added := {};
      } else {
        m := AddModel(p);
        added := {m};
      }
      var own := OwnOfRecord(r);
      m.SetRecord(p, r.name, own.cpu, r.memoryBytes, own.gpu);
    }

    /**
     * The copy loop: afterwards every pid of the sample has a model holding
     * its last record, the models of earlier pids are kept, and every new
     * model is fresh.
     */
    method UpsertRecords(items: seq<ProcessInfo>)
      requires Valid()
      modifies this`modelsByPid, this`Models, this`parentOf, Models
      ensures Valid() && old(Models) <= Models && fresh(Models - old(Models))
      ensures Extends(old(modelsByPid), modelsByPid, CopiesUpTo(items, |items|))
      ensures forall pid | pid in CopiesUpTo(items, |items|) :: pid in modelsByPid && Holds(modelsByPid[pid], pid, CopiesUpTo(items, |items|)[pid])
    {
      ghost var made: set<ProcessModel> := {};
      ghost var seen: map<int, Copy> := map[];
      for i := 0 to |items|
        invariant Valid() && Models == old(Models) + made && fresh(made)
        invariant seen == CopiesUpTo(items, i)
        invariant Extends(old(modelsByPid), modelsByPid, seen)
        invariant forall q | q in seen :: q in modelsByPid && Holds(modelsByPid[q], q, seen[q])
      {
        ghost var prev := modelsByPid;
        var added := CopyRecord(items[i], seen);
        ExtendsStep(old(modelsByPid), prev, modelsByPid, seen, items[i].processId, CopyOf(items[i]));
        made, seen := made + added, seen[items[i].processId := CopyOf(items[i])];
      }
    }

    /**
     * The removal of the models of pids that left the sample, and the
     * clearing of a selection whose pid was among them: the pid map keeps
     * exactly the pids of `live`, with their models, and `removed` is the
     * rest.
     */
    method PruneModels(live: set<int>) returns (removed: set<int>)
      requires Valid()
      modifies this`modelsByPid, this`selectedProcess, Present(selectedProcess, null)`isSelected, Present(selectedProcess, null)`notified
      ensures Valid() && removed == old(modelsByPid).Keys - live
      ensures modelsByPid.Keys == old(modelsByPid).Keys * live
      ensures forall pid | pid in modelsByPid :: modelsByPid[pid] == old(modelsByPid)[pid]
      ensures old(selectedProcess) != null && old(selectedProcess).processId in removed ==>
        selectedProcess == null && !old(selectedProcess).isSelected
      ensures !(old(selectedProcess) != null && old(selectedProcess).processId in removed) ==>
        selectedProcess == old(selectedProcess) && unchanged(Present(selectedProcess, null))
    {
      removed := modelsByPid.Keys - live;
      KeepPidsKeepsMaps(modelsByPid, groupModelsByName, Models, live);
      modelsByPid := KeepPids(modelsByPid, live);
      if selectedProcess != null && selectedProcess.processId in removed {
        SetSelectedProcess(null);
      }
    }

    /** The per-refresh resets of the roots loop: every root row back to one instance and not a group. */
    method ResetRoots(roots: seq<Node>)
      requires forall n | n in roots :: n.Proc? && n.pid in modelsByPid
      modifies PidModels(modelsByPid)`instanceCount, PidModels(modelsByPid)`isGroup, PidModels(modelsByPid)`notified
      ensures forall n | n in roots :: modelsByPid[n.pid].instanceCount == 1 && !modelsByPid[n.pid].isGroup
    {
      for i := 0 to |roots|
        invariant forall k | 0 <= k < i :: modelsByPid[roots[k].pid].instanceCount == 1 && !modelsByPid[roots[k].pid].isGroup
      {
        var m := modelsByPid[roots[i].pid];
        m.SetInstanceCount(1);
        m.SetIsGroup(false);
      }
    }

    /** A new row for an entry of neither map: known, with its own Children collection, still empty. */
    method AddRow(ghost key: RowKey) returns (m: ProcessModel)
      requires Valid()
      modifies this`Models, this`parentOf
      ensures Valid() && fresh(m) && fresh(m.children) && Models == old(Models) + {m} && m.key == key
      ensures m.children.items == [] && m.processId == 0
    {
      m := NewModel(key);
      AddKeepsSeparate(Models, parentOf, processes, visibleProcesses, topProcesses, m);
      MapsOkGrows(modelsByPid, groupModelsByName, Models, {m});
      ListInGrows(processes.items, Models, {m});
      ListInGrows(visibleProcesses.items, Models, {m});
      ListInGrows(topProcesses.items, Models, {m});
      Models, parentOf := Models + {m}, parentOf[m.children := m];
    }

    /**
     * The synthetic group made when helpers run without steam.exe: a new row
     * named steam.exe, a group of the row's instance count, holding the row's
     * own values, with no children yet.
     */
    method AddSteamRow(row: SteamRow) returns (g: ProcessModel)
      requires Valid()
      modifies this`Models, this`parentOf
      ensures Valid() && fresh(g) && Models == old(Models) + {g} && g.key == SteamGroupRow
      ensures g.name == "steam.exe" && g.isGroup && g.instanceCount == row.count && MetricsOf(g) == row.own
      ensures g.children.items == [] && g.processId == 0
    {
      g := AddRow(SteamGroupRow);
      g.SetGroupRow("steam.exe", row.count, row.own.cpu, row.own.mem, row.own.gpu);
    }

    /**
     * One parent of the children reconcile: the Children collection of the
     * row's model becomes the models of the row's desired list.
     */
    method ReconcileRow(steam: ProcessModel?, n: Node, kids: seq<Node>)
      requires Valid() && Keyed(modelsByPid, steam) && (steam != null ==> steam in Models)
      requires Resolves(modelsByPid, steam, n) && (forall k | k in kids :: Resolves(modelsByPid, steam, k)) && DistinctSeq(kids)
      modifies RowModel(modelsByPid, steam, n).children
      ensures Valid()
      ensures RowModel(modelsByPid, steam, n).children.items == RowModels(modelsByPid, steam, kids)
    {
      var m := RowModel(modelsByPid, steam, n);
      var desired := RowModels(modelsByPid, steam, kids);
      RowModelsDistinct(modelsByPid, steam, kids);
      RowModelsKnown(modelsByPid, steam, kids, Models);
      ReconcileRefs(m.children, desired);
    }

    /** Different rows have different Children collections. */
    lemma ChildrenApart(steam: ProcessModel?, a: Node, b: Node)
      requires Valid() && Keyed(modelsByPid, steam) && (steam != null ==> steam in Models)
      requires Resolves(modelsByPid, steam, a) && Resolves(modelsByPid, steam, b) && a != b
      ensures RowModel(modelsByPid, steam, a).children != RowModel(modelsByPid, steam, b).children
    {
      if RowModel(modelsByPid, steam, a) == RowModel(modelsByPid, steam, b) {
        RowModelInjective(modelsByPid, steam, a, b);
      }
      var x, y := RowModel(modelsByPid, steam, a), RowModel(modelsByPid, steam, b);
      assert x in Models && y in Models;
      assert parentOf[x.children] == x && parentOf[y.children] == y;
    }

    /** The Children collection of row n holds exactly the models of its desired list. */
    ghost predicate Written(p: Plan, steam: ProcessModel?, n: Node)
      reads this, if Resolves(modelsByPid, steam, n) then {RowModel(modelsByPid, steam, n).children} else {}
    {
      && Resolves(modelsByPid, steam, n) && (forall k | k in KidsOf(p, n) :: Resolves(modelsByPid, steam, k))
      && RowModel(modelsByPid, steam, n).children.items == RowModels(modelsByPid, steam, KidsOf(p, n))
    }

    /** One pass of the children reconcile: a key, or a model with children, is brought to its desired list. */
    method VisitParent(p: Plan, steam: ProcessModel?, n: Node)
      requires Valid() && Keyed(modelsByPid, steam) && (steam != null ==> steam in Models)
      requires Resolves(modelsByPid, steam, n) && (forall k | k in KidsOf(p, n) :: Resolves(modelsByPid, steam, k)) && DistinctSeq(KidsOf(p, n))
      modifies RowModel(modelsByPid, steam, n).children
      ensures Valid() && Written(p, steam, n)
    {
      var m := RowModel(modelsByPid, steam, n);
      if n in p.children.kids || |m.children.items| > 0 {
        ReconcileRow(steam, n, KidsOf(p, n));
      }
    }

    /** The Children collections of some rows of the tree. */
    ghost function RowCollections(steam: ProcessModel?, ns: seq<Node>): set<Collection<ProcessModel>>
      reads this
    {
      set n | n in ns && Resolves(modelsByPid, steam, n) :: RowModel(modelsByPid, steam, n).children
    }

    /** The rows of a plan, desired lists included, have models, and no desired list repeats a row. */
    ghost predicate Visitable(p: Plan, steam: ProcessModel?, ns: seq<Node>)
      reads this
    {
      forall n | n in ns ::
        Resolves(modelsByPid, steam, n) && (forall k | k in KidsOf(p, n) :: Resolves(modelsByPid, steam, k)) && DistinctSeq(KidsOf(p, n))
    }

    /**
     * The passes of the children reconcile over a list of parents, in order:
     * each one ends with exactly the models of its desired list.
     */
    method VisitParents(p: Plan, steam: ProcessModel?, ns: seq<Node>)
      requires Valid() && Keyed(modelsByPid, steam) && (steam != null ==> steam in Models) && Visitable(p, steam, ns)
      modifies RowCollections(steam, ns)
      ensures Valid() && forall n | n in ns :: Written(p, steam, n)
      decreases |ns|
    {
      if ns != [] {
        var n := ns[0];
        VisitParent(p, steam, n);
        assert Visitable(p, steam, ns[1..]);
        if n !in ns[1..] {
          forall x | x in ns[1..] ensures RowModel(modelsByPid, steam, x).children != RowModel(modelsByPid, steam, n).children {
            ChildrenApart(steam, x, n);
          }
          assert RowModel(modelsByPid, steam, n).children !in RowCollections(steam, ns[1..]);
        }
        VisitParents(p, steam, ns[1..]);
        assert Written(p, steam, n);
      }
    }

    /**
     * The children reconcile: every parent it visits, a desired-children key
     * or a model with children, ends with exactly the models of its desired
     * list (none for a model that is no key).
     */
    method ReconcileParents(p: Plan, order: seq<int>, steam: ProcessModel?)
      requires Valid() && Keyed(modelsByPid, steam) && (steam != null ==> steam in Models)
      requires Fits(p, modelsByPid, steam) && forall pid | pid in order :: pid in modelsByPid
      modifies Kids()
      ensures Valid()
      ensures forall n | n in ParentOrder(p, order) :: Written(p, steam, n)
    {
      var ps := ParentOrder(p, order);
      forall n | n in ps
        ensures Resolves(modelsByPid, steam, n) && (forall k | k in KidsOf(p, n) :: Resolves(modelsByPid, steam, k)) && DistinctSeq(KidsOf(p, n))
      {
        FitsResolves(p, modelsByPid, steam, order, n);
      }
      VisitParents(p, steam, ps);
    }

    /** The models of some rows of the tree. */
    ghost function RowModelSet(steam: ProcessModel?, ns: seq<Node>): set<ProcessModel>
      reads this
    {
      set n | n in ns && Resolves(modelsByPid, steam, n) :: RowModel(modelsByPid, steam, n)
    }

    /**
     * The writes of AggregateProcessTree: every row reached from the roots,
     * in visit order, takes its aggregated values; no other field changes.
     */
    method WriteAggregates(items: seq<ProcessInfo>, p: Plan, steam: ProcessModel?, ns: seq<Node>)
      requires Keyed(modelsByPid, steam) && forall n | n in ns :: Resolves(modelsByPid, steam, n)
      modifies RowModelSet(steam, ns)`cpuPercent, RowModelSet(steam, ns)`memoryBytes
      modifies RowModelSet(steam, ns)`gpuPercent, RowModelSet(steam, ns)`notified
      ensures forall n | n in ns :: MetricsOf(RowModel(modelsByPid, steam, n)) == Agg(items, p, n, Depth(items))
    {
      for i := 0 to |ns|
        invariant forall k | 0 <= k < i :: MetricsOf(RowModel(modelsByPid, steam, ns[k])) == Agg(items, p, ns[k], Depth(items))
      {
        var n := ns[i];
        var m := RowModel(modelsByPid, steam, n);
        var a := Agg(items, p, n, Depth(items));
        label Before:
        m.SetMetrics(a.cpu, a.mem, a.gpu);
        forall k | 0 <= k < i
          ensures MetricsOf(RowModel(modelsByPid, steam, ns[k])) == Agg(items, p, ns[k], Depth(items))
        {
          var x := ns[k];
          if x != n {
            if RowModel(modelsByPid, steam, x) == m {
              RowModelInjective(modelsByPid, steam, x, n);
            }
            assert MetricsOf(RowModel(modelsByPid, steam, ns[k])) == old@Before(MetricsOf(RowModel(modelsByPid, steam, ns[k])));
          }
        }
      }
    }

    // ------------------------------------------------------------- grouping

    /** The group rows, the values of _groupModelsByName. */
    ghost function GroupModels(): set<ProcessModel>
      reads this
    {
      set k | k in groupModelsByName :: groupModelsByName[k]
    }

    /** The Children collections of the group rows. */
    ghost function GroupKids(): set<Collection<ProcessModel>>
      reads this
    {
      set g | g in GroupModels() :: g.children
    }

    /**
     * The group row of a name: the one _groupModelsByName holds for it
     * ignoring case, or a new one it then holds.
     */
    method GroupRowFor(name: string) returns (g: ProcessModel)
      requires Valid()
      modifies this`Models, this`parentOf, this`groupModelsByName
      ensures Valid() && groupModelsByName == old(groupModelsByName)[ToUpper(name) := g]
      ensures ToUpper(name) in old(groupModelsByName) ==> g == old(groupModelsByName)[ToUpper(name)] && Models == old(Models)
      ensures ToUpper(name) !in old(groupModelsByName) ==> fresh(g) && fresh(g.children) && Models == old(Models) + {g} && g.children.items == []
      ensures g in Models && g.key == GroupRow(ToUpper(name)) && old(Models) <= Models
    {
      var k := ToUpper(name);
      if k in groupModelsByName {
        g := groupModelsByName[k];
      } else {
        g := AddRow(GroupRow(k));
        groupModelsByName := groupModelsByName[k := g];
      }
    }

    /** The sum loop of a group row: the aggregated values of its roots, added up in order. */
    method SumRows(members: seq<Node>, steam: ProcessModel?, ghost aggOf: Node -> Metrics) returns (cpu: real, mem: int, gpu: real)
      requires forall n | n in members :: Resolves(modelsByPid, steam, n) && MetricsOf(RowModel(modelsByPid, steam, n)) == aggOf(n)
      ensures Metrics(cpu, mem, gpu) == SumMetrics(AggsOf(aggOf, members))
    {
      cpu, mem, gpu := 0.0, 0, 0.0;
      for i := 0 to |members|
        invariant Metrics(cpu, mem, gpu) == SumMetrics(AggsOf(aggOf, members[..i]))
      {
        var r := RowModel(modelsByPid, steam, members[i]);
        assert members[..i + 1] == members[..i] + [members[i]];
        assert AggsOf(aggOf, members[..i + 1]) == AggsOf(aggOf, members[..i]) + [aggOf(members[i])];
        SumMetricsSnoc(AggsOf(aggOf, members[..i]), aggOf(members[i]));
        cpu, mem, gpu := cpu + r.cpuPercent, mem + r.memoryBytes, gpu + r.gpuPercent;
      }
      assert members[..|members|] == members;
    }

    /** The Children of a group row brought to the models of its roots. */
    method ReconcileGroup(g: ProcessModel, members: seq<Node>, steam: ProcessModel?)
      requires Valid() && g in Models && Keyed(modelsByPid, steam) && (steam != null ==> steam in Models)
      requires DistinctSeq(members) && forall n | n in members :: Resolves(modelsByPid, steam, n)
      modifies g.children
      ensures Valid() && g.children.items == RowModels(modelsByPid, steam, members)
    {
      var desired := RowModels(modelsByPid, steam, members);
      RowModelsDistinct(modelsByPid, steam, members);
      RowModelsKnown(modelsByPid, steam, members, Models);
      ReconcileRefs(g.children, desired);
    }

    /**
     * One group row of BuildGroupedTopLevel: the name, the group flag, the
     * instance count, the clamped sums of its roots' values, and its
     * Children brought to those roots.
     */
    method WriteGroup(g: ProcessModel, key: string, members: seq<Node>, steam: ProcessModel?, ghost aggOf: Node -> Metrics)
      requires Valid() && g in Models && g.key.GroupRow? && Keyed(modelsByPid, steam) && (steam != null ==> steam in Models)
      requires DistinctSeq(members)
      requires forall n | n in members :: Resolves(modelsByPid, steam, n) && MetricsOf(RowModel(modelsByPid, steam, n)) == aggOf(n)
      modifies g`name, g`isGroup, g`instanceCount, g`cpuPercent, g`memoryBytes, g`gpuPercent, g`notified, g.children
      ensures Valid() && GroupWritten(key, members, g, steam, aggOf)
    {
      var cpu, mem, gpu := SumRows(members, steam, aggOf);
      g.SetGroupRow(key, |members|, Clamp(cpu, 0.0, 100.0), mem, Clamp(gpu, 0.0, 100.0));
      ReconcileGroup(g, members, steam);
    }

    /** A top-level row as BuildGroupedTopLevel leaves it. */
    ghost predicate TopWritten(t: TopRow<Node>, d: ProcessModel, steam: ProcessModel?, aggOf: Node -> Metrics)
      reads this, d`name, d`isGroup, d`instanceCount, d`cpuPercent, d`memoryBytes, d`gpuPercent, d.children`items
    {
      match t
      case Single(n) =>
        Resolves(modelsByPid, steam, n) && d == RowModel(modelsByPid, steam, n) && d.instanceCount == 1 && !d.isGroup
      case Grouped(key, members) =>
        ToUpper(key) in groupModelsByName && d == groupModelsByName[ToUpper(key)] && GroupWritten(key, members, d, steam, aggOf)
    }

    /** A group row as WriteGroup leaves it. */
    ghost predicate GroupWritten(key: string, members: seq<Node>, d: ProcessModel, steam: ProcessModel?, aggOf: Node -> Metrics)
      reads this, d`name, d`isGroup, d`instanceCount, d`cpuPercent, d`memoryBytes, d`gpuPercent, d.children`items
    {
      && d.name == key && d.isGroup && d.instanceCount == |members|
      && (forall n | n in members :: Resolves(modelsByPid, steam, n))
      && MetricsOf(d) == GroupMetrics(AggsOf(aggOf, members))
      && d.children.items == RowModels(modelsByPid, steam, members)
    }

    /** The group row _groupModelsByName already holds for a name, if any. */
    ghost function GroupRowAt(name: string): set<ProcessModel>
      reads this
    {
      if ToUpper(name) in groupModelsByName then {groupModelsByName[ToUpper(name)]} else {}
    }

    /** Its Children collection. */
    ghost function GroupRowKidsAt(name: string): set<Collection<ProcessModel>>
      reads this
    {
      if ToUpper(name) in groupModelsByName then {groupModelsByName[ToUpper(name)].children} else {}
    }

    /** The row of a name with several roots: its group row, found or added, then written. */
    method PlaceGroup(g: Group<Node>, steam: ProcessModel?, ghost aggOf: Node -> Metrics) returns (d: ProcessModel)
      requires Valid() && Keyed(modelsByPid, steam) && (steam != null ==> steam in Models) && DistinctSeq(g.members)
      requires forall n | n in g.members :: Resolves(modelsByPid, steam, n) && MetricsOf(RowModel(modelsByPid, steam, n)) == aggOf(n)
      modifies this`groupModelsByName, this`Models, this`parentOf
      modifies GroupRowAt(g.key)`name, GroupRowAt(g.key)`isGroup, GroupRowAt(g.key)`instanceCount, GroupRowAt(g.key)`notified
      modifies GroupRowAt(g.key)`cpuPercent, GroupRowAt(g.key)`memoryBytes, GroupRowAt(g.key)`gpuPercent, GroupRowKidsAt(g.key)
      ensures Valid() && old(Models) <= Models && d in Models
      ensures TopWritten(Grouped(g.key, g.members), d, steam, aggOf)
      ensures groupModelsByName == old(groupModelsByName)[ToUpper(g.key) := d] && d.key == GroupRow(ToUpper(g.key))
      ensures ToUpper(g.key) !in old(groupModelsByName) ==> fresh(d) && fresh(d.children)
      ensures ToUpper(g.key) in old(groupModelsByName) ==> d == old(groupModelsByName)[ToUpper(g.key)]
      ensures Models == old(Models) || (fresh(d) && fresh(d.children) && Models == old(Models) + {d})
      ensures unchanged(old(Models) - {d}) && unchanged(old(Kids()) - {d.children})
    {
      d := GroupRowFor(g.key);
      WriteGroup(d, g.key, g.members, steam, aggOf);
    }

    /** The top-level row of one group: its root when it is alone, its group row otherwise. */
    static function RowOf(g: Group<Node>): (t: TopRow<Node>)
      requires g.members != []
      ensures t.Single? <==> |g.members| == 1
      ensures t.Single? ==> t.item == g.members[0]
      ensures t.Grouped? ==> t.key == g.key && t.members == g.members
    {
      if |g.members| <= 1 then Single(g.members[0]) else Grouped(g.key, g.members)
    }

    /** The row of a name with one root: that root, back to one instance and not a group. */
    method PlaceSingle(n: Node, steam: ProcessModel?) returns (d: ProcessModel)
      requires Valid() && Resolves(modelsByPid, steam, n)
      modifies RowModel(modelsByPid, steam, n)`instanceCount, RowModel(modelsByPid, steam, n)`isGroup
      modifies RowModel(modelsByPid, steam, n)`notified
      ensures Valid() && d == RowModel(modelsByPid, steam, n) && d.instanceCount == 1 && !d.isGroup
      ensures unchanged(Models - {d}) && unchanged(Kids())
    {
      d := RowModel(modelsByPid, steam, n);
      d.SetInstanceCount(1);
      d.SetIsGroup(false);
    }

    /** The row one group's step writes: its root, or the group row the map already holds for its name. */
    ghost function Target(steam: ProcessModel?, g: Group<Node>): set<ProcessModel>
      reads this
    {
      if |g.members| == 1 then
        (if Resolves(modelsByPid, steam, g.members[0]) then {RowModel(modelsByPid, steam, g.members[0])} else {})
      else GroupRowAt(g.key)
    }

    /** The Children collection that step writes. */
    ghost function TargetKids(g: Group<Node>): set<Collection<ProcessModel>>
      reads this
    {
      if |g.members| == 1 then {} else GroupRowKidsAt(g.key)
    }

    /** One step of the loop of BuildGroupedTopLevel: the row of one group written. */
    method PlaceRow(g: Group<Node>, steam: ProcessModel?, ghost aggOf: Node -> Metrics) returns (d: ProcessModel)
      requires Valid() && Keyed(modelsByPid, steam) && (steam != null ==> steam in Models)
      requires g.members != [] && DistinctSeq(g.members)
      requires forall n | n in g.members :: Resolves(modelsByPid, steam, n) && MetricsOf(RowModel(modelsByPid, steam, n)) == aggOf(n)
      modifies this`groupModelsByName, this`Models, this`parentOf, Target(steam, g), TargetKids(g)
      ensures Valid() && old(Models) <= Models && d in Models
      ensures TopWritten(RowOf(g), d, steam, aggOf)
      ensures |g.members| == 1 ==> groupModelsByName == old(groupModelsByName) && d == RowModel(modelsByPid, steam, g.members[0])
      ensures |g.members| > 1 ==> groupModelsByName == old(groupModelsByName)[ToUpper(g.key) := d] && d.key == GroupRow(ToUpper(g.key))
      ensures |g.members| > 1 && ToUpper(g.key) !in old(groupModelsByName) ==> fresh(d) && fresh(d.children)
      ensures |g.members| > 1 && ToUpper(g.key) in old(groupModelsByName) ==> d == old(groupModelsByName)[ToUpper(g.key)]
      ensures |g.members| == 1 ==> MetricsOf(d) == old(MetricsOf(d))
      ensures Models == old(Models) || (fresh(d) && fresh(d.children) && Models == old(Models) + {d})
      ensures unchanged(old(Models) - {d}) && unchanged(old(Kids()) - {d.children})
    {
      if |g.members| <= 1 {
        d := PlaceSingle(g.members[0], steam);
      } else {
        d := PlaceGroup(g, steam, aggOf);
      }
    }

    /** The groups as GroupBy leaves them: non-empty, duplicate-free, of distinct names ignoring case. */
    static ghost predicate DistinctGroups(gs: seq<Group<Node>>) {
      && (forall k | 0 <= k < |gs| :: gs[k].members != [] && DistinctSeq(gs[k].members))
      && (forall i, j | 0 <= i < j < |gs| :: ToUpper(gs[i].key) != ToUpper(gs[j].key))
    }

    /** The roots of every group resolve to rows holding their aggregated values. */
    ghost predicate Aggregated(gs: seq<Group<Node>>, steam: ProcessModel?, aggOf: Node -> Metrics)
      reads this, set k, n | 0 <= k < |gs| && n in gs[k].members && Resolves(modelsByPid, steam, n) :: RowModel(modelsByPid, steam, n)
    {
      forall k, n | 0 <= k < |gs| && n in gs[k].members ::
        Resolves(modelsByPid, steam, n) && MetricsOf(RowModel(modelsByPid, steam, n)) == aggOf(n)
    }

    /** The rows of the groups before the i-th are written. */
    ghost predicate WrittenUpTo(gs: seq<Group<Node>>, i: int, desired: seq<ProcessModel>, steam: ProcessModel?, aggOf: Node -> Metrics)
      requires 0 <= i <= |gs| && forall k | 0 <= k < i :: gs[k].members != []
      reads this, set k | 0 <= k < |desired| :: desired[k], set k | 0 <= k < |desired| :: desired[k].children
    {
      |desired| == i && forall k | 0 <= k < i :: TopWritten(RowOf(gs[k]), desired[k], steam, aggOf)
    }

    /** Whether the row a turn writes is where TurnRow looks for it. */
    ghost predicate TurnPlaced(t: Turn)
      reads this
    {
      && 0 <= t.i < |t.gs| && t.gs[t.i].members != []
      && (|t.gs[t.i].members| == 1 ==> Resolves(modelsByPid, t.steam, t.gs[t.i].members[0]))
      && (|t.gs[t.i].members| > 1 ==> ToUpper(t.gs[t.i].key) in groupModelsByName)
    }

    /** The row a turn writes: the group's root when it is alone, the map's group row otherwise. */
    ghost function TurnRow(t: Turn): ProcessModel
      requires TurnPlaced(t)
      reads this
    {
      var g := t.gs[t.i];
      if |g.members| == 1 then RowModel(modelsByPid, t.steam, g.members[0]) else groupModelsByName[ToUpper(g.key)]
    }

    /**
     * A turn of the loop of BuildGroupedTopLevel keeps the earlier rows
     * written and the roots aggregated: it changed one model only, and that
     * model is the turn's own row, which no earlier group names.
     */
    twostate lemma TurnKeeps(t: Turn)
      requires 0 <= t.i < |t.gs| && DistinctGroups(t.gs) && modelsByPid == old(modelsByPid) && TurnPlaced(t)
      requires Keyed(modelsByPid, t.steam) && old(MapsOkOf(modelsByPid, groupModelsByName, Models))
      requires t.steam != null ==> t.steam in old(Models)
      requires old(SeparateOf(Models, parentOf, processes, visibleProcesses, topProcesses))
      requires TurnRow(t) in old(Models) || fresh(TurnRow(t).children)
      requires old(Aggregated(t.gs, t.steam, t.aggOf)) && old(WrittenUpTo(t.gs, t.i, t.desired, t.steam, t.aggOf))
      requires unchanged(old(Models) - {TurnRow(t)}) && unchanged(old(Kids()) - {TurnRow(t).children})
      requires TopWritten(RowOf(t.gs[t.i]), TurnRow(t), t.steam, t.aggOf)
      requires |t.gs[t.i].members| == 1 ==>
        groupModelsByName == old(groupModelsByName) && MetricsOf(TurnRow(t)) == old(MetricsOf(TurnRow(t)))
      requires |t.gs[t.i].members| > 1 ==>
        groupModelsByName.Keys == old(groupModelsByName).Keys + {ToUpper(t.gs[t.i].key)}
        && (forall k | k in old(groupModelsByName) && k != ToUpper(t.gs[t.i].key) :: groupModelsByName[k] == old(groupModelsByName)[k])
        && TurnRow(t).key == GroupRow(ToUpper(t.gs[t.i].key))
      ensures Aggregated(t.gs, t.steam, t.aggOf) && WrittenUpTo(t.gs, t.i + 1, t.desired + [TurnRow(t)], t.steam, t.aggOf)
    {
      var gs, i, desired, d, steam, aggOf := t.gs, t.i, t.desired, TurnRow(t), t.steam, t.aggOf;
      var g := gs[i];
      forall k, n | 0 <= k < |gs| && n in gs[k].members
        ensures Resolves(modelsByPid, steam, n) && MetricsOf(RowModel(modelsByPid, steam, n)) == aggOf(n)
      {
        var r := RowModel(modelsByPid, steam, n);
        assert r in old(Models);
      }
      forall k | 0 <= k < i ensures TopWritten(RowOf(gs[k]), desired[k], steam, aggOf) {
        var e, w := desired[k], RowOf(gs[k]);
        assert old(TopWritten(w, e, steam, aggOf));
        if w.Grouped? {
          assert ToUpper(gs[k].key) != ToUpper(g.key);
          assert e.key == GroupRow(ToUpper(gs[k].key)) && e in old(Models);
          assert e != d && e.children in old(Kids());
          assert e.children != d.children by {
            if d in old(Models) { assert old(parentOf[e.children]) == e && old(parentOf[d.children]) == d; }
          }
        } else if e != d {
          assert e in old(Models);
          assert unchanged(e);
        } else {
          assert e.key != GroupRow(ToUpper(g.key));
        }
      }
    }

    /**
     * The end of BuildGroupedTopLevel: the group rows of names not seen this
     * time are dropped from _groupModelsByName; no other entry changes.
     */
    method PruneGroupNames(seen: set<string>)
      requires Valid()
      modifies this`groupModelsByName
      ensures Valid() && groupModelsByName.Keys == old(groupModelsByName).Keys * seen
      ensures forall k | k in groupModelsByName :: groupModelsByName[k] == old(groupModelsByName)[k]
    {
      groupModelsByName := map k | k in groupModelsByName && k in seen :: groupModelsByName[k];
    }

    // ------------------------------------------------------ sorting

    /** The moving averages of one metric. */
    function Averages(k: Smoothing): map<ProcessModel, real>
      reads this
    {
      match k
      case CpuSmoothing => smoothedCpu
      case MemSmoothing => smoothedMem
      case GpuSmoothing => smoothedGpu
    }

    /**
     * GetSmoothed: the row's new moving average, which is also written back
     * into the metric's map; the other maps are untouched.
     */
    method GetSmoothed(k: Smoothing, m: ProcessModel, current: Double) returns (next: real)
      modifies this`smoothedCpu, this`smoothedMem, this`smoothedGpu
      ensures next == Smoothed(Stored(old(Averages(k)), m), current)
      ensures Averages(k) == old(Averages(k))[m := next]
      ensures forall o :: o != k ==> Averages(o) == old(Averages(o))
    {
      var cur := current.OrZero();
      var prev := if m in Averages(k) then Averages(k)[m] else cur;
      next := prev * (1.0 - SmoothAlpha) + cur * SmoothAlpha;
      match k
      case CpuSmoothing => smoothedCpu := smoothedCpu[m := next];
      case MemSmoothing => smoothedMem := smoothedMem[m := next];
      case GpuSmoothing => smoothedGpu := smoothedGpu[m := next];
    }

    /**
     * The key computations of one sort: GetSmoothed for each row, once, with
     * the row's figure; the keys are the new averages, all written back.
     */
    method SmoothRows(k: Smoothing, rows: seq<ProcessModel>) returns (keys: map<ProcessModel, real>)
      requires DistinctSeq(rows)
      modifies this`smoothedCpu, this`smoothedMem, this`smoothedGpu
      ensures keys == old(Averaged(Averages(k), k, rows))
      ensures Averages(k) == old(Averages(k)) + keys
      ensures forall o :: o != k ==> Averages(o) == old(Averages(o))
    {
      ghost var a0 := Averages(k);
      keys := map[];
      var i := 0;
      while i < |rows|
        invariant 0 <= i <= |rows|
        invariant forall m :: m in keys <==> m in rows[..i]
        invariant forall m | m in keys :: keys[m] == old(Smoothed(Stored(Averages(k), m), Finite(Figure(k, m))))
        invariant Averages(k) == a0 + keys
        invariant forall o :: o != k ==> Averages(o) == old(Averages(o))
      {
        var m := rows[i];
        assert m !in keys by {
          forall j | 0 <= j < i ensures rows[..i][j] != m { assert rows[..i][j] == rows[j]; }
        }
        assert rows[..i + 1] == rows[..i] + [m];
        var next := GetSmoothed(k, m, Finite(Figure(k, m)));
        UpdateOverride(a0, keys, m, next);
        keys := keys[m := next];
        i := i + 1;
      }
      assert rows[..i] == rows;
    }

    /** IsPinnedRecursive, looking at most `depth` levels down: the row or a row below it is pinned. */
    ghost predicate PinnedBelow(m: ProcessModel, depth: nat)
      requires m in Models && ChildListsOk()
      reads this, Models, Kids()
      decreases depth
    {
      m.isPinned || (depth > 0 && exists j :: 0 <= j < |m.children.items| && PinnedBelow(m.children.items[j], depth - 1))
    }

    /** Looking further down never loses a pin. */
    lemma {:induction false} PinnedBelowDeeper(m: ProcessModel, depth: nat)
      requires m in Models && ChildListsOk()
      ensures PinnedBelow(m, depth) ==> PinnedBelow(m, depth + 1)
      decreases depth
    {
      if PinnedBelow(m, depth) && !m.isPinned {
        var j :| 0 <= j < |m.children.items| && PinnedBelow(m.children.items[j], depth - 1);
        PinnedBelowDeeper(m.children.items[j], depth - 1);
      }
    }

    /** IsPinnedRecursive: a pinned row, or the first child found with a pinned subtree. */
    method IsPinnedRecursive(n: ProcessModel, depth: nat) returns (r: bool)
      requires n in Models && ChildListsOk()
      ensures r == PinnedBelow(n, depth)
      decreases depth
    {
      if n.isPinned {
        return true;
      }
      if depth == 0 {
        return false;
      }
      assert ListIn(n.children.items, Models);
      ghost var pinned := PinnedBelow(n, depth);
      var i := 0;
      while i < |n.children.items|
        invariant 0 <= i <= |n.children.items|
        invariant forall j :: 0 <= j < i ==> !old(PinnedBelow(n.children.items[j], depth - 1))
        invariant pinned == PinnedBelow(n, depth)
      {
        ghost var kids := Kids();
        var p := IsPinnedRecursive(n.children.items[i], depth - 1);
        assert kids == Kids() && ChildListsOk();
        assert p == old(PinnedBelow(n.children.items[i], depth - 1));
        if p {
          return true;
        }
        i := i + 1;
      }
      return false;
    }

    /** The rows of a list whose subtree holds a pinned row. */
    ghost function PinnedSet(rows: seq<ProcessModel>, depth: nat): set<ProcessModel>
      requires ChildListsOk() && forall m :: m in rows ==> m in Models
      reads this, Models, Kids()
    {
      set m | m in rows && PinnedBelow(m, depth)
    }

    /** The Where(IsPinnedRecursive) test, evaluated for each row in turn. */
    method PinnedRows(rows: seq<ProcessModel>, depth: nat) returns (pins: set<ProcessModel>)
      requires ChildListsOk() && forall m :: m in rows ==> m in Models
      ensures pins == PinnedSet(rows, depth) && pins == old(PinnedSet(rows, depth))
    {
      pins := {};
      ghost var all := PinnedSet(rows, depth);
      var i := 0;
      while i < |rows|
        invariant 0 <= i <= |rows|
        invariant pins == old(PinnedSet(rows[..i], depth))
        invariant all == PinnedSet(rows, depth)
      {
        assert rows[..i + 1] == rows[..i] + [rows[i]];
        ghost var kids := Kids();
        var p := IsPinnedRecursive(rows[i], depth);
        assert kids == Kids() && ChildListsOk();
        assert p == old(PinnedBelow(rows[i], depth));
        if p {
          pins := pins + {rows[i]};
        }
        i := i + 1;
      }
      assert rows[..i] == rows;
    }

    /** The keys of a sort of the top-level rows: none (all 0) under Name, else their new moving averages. */
    ghost function SortKeys(): map<ProcessModel, real>
      reads this, processes, set m | m in processes.items
    {
      match SmoothingOf(sortColumn)
      case None => map[]
      case Some(k) => Averaged(Averages(k), k, processes.items)
    }

    /** The order ApplySortOnly gives the top-level rows: pinned subtrees first, each part stably by key. */
    ghost function SortedRoots(depth: nat): seq<ProcessModel>
      requires Valid()
      reads this, processes, Models, Kids(), visibleProcesses, topProcesses
    {
      PinnedFirst(processes.items, InSet(PinnedSet(processes.items, depth)), KeyOf(SortKeys()), sortDescending)
    }

    /** A metric's averages after a sort: the top-level rows' new values written into the active column's map. */
    ghost function AveragesAfterSort(k: Smoothing): map<ProcessModel, real>
      reads this, processes, set m | m in processes.items
    {
      if SmoothingOf(sortColumn) == Some(k) then Averages(k) + SortKeys() else Averages(k)
    }

    /**
     * ApplySortOnly on the top-level list: past the throttle, the rows are
     * moved (never cleared) into the order of SortedRoots, and the active
     * column's map holds their new averages; a skipped sort changes nothing
     * but nothing is recorded either.
     */
    method ApplySortOnly(force: bool, now: int, depth: nat)
      requires Valid()
      modifies this`lastSortApplyMs, this`smoothedCpu, this`smoothedMem, this`smoothedGpu, processes
      ensures Valid()
      ensures var g := Throttle(force, suppressSortDueToInteraction, old(lastSortApplyMs), now);
        && lastSortApplyMs == g.last
        && (g.runs ==> processes.items == old(SortedRoots(depth)) && forall k :: Averages(k) == old(AveragesAfterSort(k)))
        && (!g.runs ==> unchanged(processes) && forall k :: Averages(k) == old(Averages(k)))
      ensures old(processes.items) == old(SortedRoots(depth)) ==> processes.changes == old(processes.changes)
      ensures multiset(processes.items) == old(multiset(processes.items))
    {
      var gate := Throttle(force, suppressSortDueToInteraction, lastSortApplyMs, now);
      if gate.runs {
        SortRoots(depth);
      }
      lastSortApplyMs := gate.last;
    }

    /** The sort proper: the keys, the pinned test, the order, and the Move pass. */
    method SortRoots(depth: nat)
      requires Valid()
      modifies this`smoothedCpu, this`smoothedMem, this`smoothedGpu, processes
      ensures Valid() && processes.items == old(SortedRoots(depth))
      ensures forall k :: Averages(k) == old(AveragesAfterSort(k))
      ensures old(processes.items) == old(SortedRoots(depth)) ==> processes.changes == old(processes.changes)
      ensures multiset(processes.items) == old(multiset(processes.items))
    {
      ghost var sorted0 := SortedRoots(depth);
      var rows := processes.items;
      var pins, keys := RootKeys(depth);
      var sorted := PinnedFirst(rows, InSet(pins), KeyOf(keys), sortDescending);
      assert sorted == sorted0;
      PinnedFirstPermutes(rows, InSet(pins), KeyOf(keys), sortDescending);
      MoveRoots(sorted);
    }

    /**
     * The inputs of the order: the Where(IsPinnedRecursive) test for each
     * top-level row, then the keys, GetSmoothed writing each row's new
     * average into the active column's map.
     */
    method RootKeys(depth: nat) returns (pins: set<ProcessModel>, keys: map<ProcessModel, real>)
      requires Valid()
      modifies this`smoothedCpu, this`smoothedMem, this`smoothedGpu
      ensures Valid() && pins == old(PinnedSet(processes.items, depth)) && keys == old(SortKeys())
      ensures forall k :: Averages(k) == old(AveragesAfterSort(k))
    {
      var rows := processes.items;
      pins := PinnedRows(rows, depth);
      keys := map[];
      var smoothing := SmoothingOf(sortColumn);
      if smoothing.Some? {
        keys := SmoothRows(smoothing.value, rows);
      }
      StructureKept();
      forall k ensures Averages(k) == old(AveragesAfterSort(k)) {
        if smoothing == Some(k) {
          assert Averages(k) == old(Averages(k)) + keys;
        } else {
          assert Averages(k) == old(Averages(k));
        }
      }
    }

    /** Valid depends on the models, the maps and the lists only: writing the averages keeps it. */
    twostate lemma StructureKept()
      requires old(Valid())
      requires Models == old(Models) && parentOf == old(parentOf)
      requires modelsByPid == old(modelsByPid) && groupModelsByName == old(groupModelsByName)
      requires unchanged(old(Kids())) && unchanged(processes, visibleProcesses, topProcesses)
      ensures Valid()
    {
    }

    /** The Move pass on the top-level list, for an order that rearranges it. */
    method MoveRoots(sorted: seq<ProcessModel>)
      requires Valid() && multiset(sorted) == multiset(processes.items)
      modifies processes
      ensures Valid() && processes.items == sorted
      ensures old(processes.items) == sorted ==> processes.changes == old(processes.changes)
    {
      PermutationDistinct(processes.items, sorted);
      ghost var rows := processes.items;
      MoveInOrder(processes, sorted);
      assert forall x :: x in processes.items ==> x in multiset(rows);
    }

    // ------------------------------------------------ lists derived from the table

    /**
     * ReconcileTopLevelOrder: rows missing from the desired list are removed,
     * the others inserted or moved into place; an already ordered list is
     * left untouched.
     */
    method ReconcileTopLevelOrder(desired: seq<ProcessModel>)
      requires Valid() && ListIn(desired, Models)
      modifies processes
      ensures Valid() && processes.items == desired
      ensures old(processes.items) == desired ==> processes.changes == old(processes.changes)
    {
      ReconcileRefs(processes, desired);
    }

    /** RefreshTopProcesses' key of each top-level row. */
    ghost function TopKeys(): map<ProcessModel, real>
      reads this, processes, set m | m in processes.items
    {
      map m | m in processes.items :: RawKey(sortColumn, nameRank, m)
    }

    /** The five rows RefreshTopProcesses shows. */
    ghost function TopTarget(): seq<ProcessModel>
      reads this, processes, set m | m in processes.items
    {
      TopFive(processes.items, KeyOf(TopKeys()), sortDescending)
    }

    /**
     * RefreshTopProcesses: TopProcesses is cleared and refilled with the first
     * five rows by the raw figure (or the name) of the active column.
     */
    method RefreshTopProcesses()
      requires Valid()
      modifies topProcesses
      ensures Valid() && topProcesses.items == old(TopTarget())
      ensures topProcesses.changes == old(topProcesses.changes) + 1 + |topProcesses.items|
    {
      var ordered := TopRows();
      Refill(topProcesses, ordered);
      ListsKept();
    }

    /** The Take(5) of OrderBy or OrderByDescending: known rows, each once. */
    method TopRows() returns (ordered: seq<ProcessModel>)
      requires Valid()
      ensures ordered == TopTarget() && ListIn(ordered, Models)
    {
      var keys := map m | m in processes.items :: RawKey(sortColumn, nameRank, m);
      ordered := TopFive(processes.items, KeyOf(keys), sortDescending);
      TopFiveAreTop(processes.items, KeyOf(keys), sortDescending);
      TopFiveDistinct(processes.items, KeyOf(keys), sortDescending);
    }

    /** Valid depends on the lists' contents only through ListIn: a list rewritten with known rows keeps it. */
    twostate lemma ListsKept()
      requires old(Valid())
      requires Models == old(Models) && parentOf == old(parentOf)
      requires modelsByPid == old(modelsByPid) && groupModelsByName == old(groupModelsByName)
      requires unchanged(old(Kids()))
      requires ListIn(processes.items, Models) && ListIn(visibleProcesses.items, Models) && ListIn(topProcesses.items, Models)
      ensures Valid()
    {
    }

    /** What the filter reads of a row: its name and its children's names. */
    function ViewOf(m: ProcessModel): (v: RowView<ProcessModel>)
      requires m in Models && ChildListsOk()
      reads this, Kids(), Models
      ensures v.row == m
    {
      RowView(m, m.name, Names(m.children.items))
    }

    function ViewsOf(rows: seq<ProcessModel>): (r: seq<RowView<ProcessModel>>)
      requires ChildListsOk() && forall x :: x in rows ==> x in Models
      reads this, Kids(), Models
      ensures |r| == |rows| && forall i :: 0 <= i < |rows| ==> r[i] == ViewOf(rows[i])
    {
      if rows == [] then [] else [ViewOf(rows[0])] + ViewsOf(rows[1..])
    }

    /** The list UpdateVisibleProcesses shows for the current query. */
    ghost function VisibleTarget(): seq<ProcessModel>
      requires ChildListsOk() && forall x :: x in processes.items ==> x in Models
      reads this, Kids(), Models, processes
    {
      VisibleRows(ViewsOf(processes.items), searchQuery)
    }

    /**
     * UpdateVisibleProcesses: VisibleProcesses is reconciled with every
     * top-level row when the query is blank, else with the rows whose name or
     * a child's name contains it, in table order.
     */
    method UpdateVisibleProcesses()
      requires Valid()
      modifies visibleProcesses
      ensures Valid() && visibleProcesses.items == old(VisibleTarget())
      ensures old(visibleProcesses.items) == old(VisibleTarget()) ==> visibleProcesses.changes == old(visibleProcesses.changes)
    {
      var desired := VisibleNow();
      ReconcileRefs(visibleProcesses, desired);
      ListsKept();
    }

    /** The desired list of UpdateVisibleProcesses: the whole table, or the rows that match. */
    method VisibleNow() returns (desired: seq<ProcessModel>)
      requires Valid()
      ensures desired == VisibleTarget() && ListIn(desired, Models)
    {
      var query := searchQuery;
      var rows := processes.items;
      var views := ViewsOf(rows);
      VisibleListed(rows, query);
      if IsBlank(query) {
        desired := rows;
        assert RowsOf(views) == rows;
        VisibleRowsAre(views, query);
      } else {
        desired := MatchingRows(views, query);
      }
      assert Valid() && rows == processes.items && query == searchQuery;
      assert views == ViewsOf(rows);
      assert VisibleTarget() == VisibleRows(views, query);
    }

    /** The filtered list holds known rows, each once. */
    lemma VisibleListed(rows: seq<ProcessModel>, query: string)
      requires ChildListsOk() && ListIn(rows, Models)
      ensures ListIn(VisibleRows(ViewsOf(rows), query), Models)
    {
      var views := ViewsOf(rows);
      assert RowsOf(views) == rows;
      KeepRowsDistinct(views, ShownBy(query));
      KeepRowsMembers(views, ShownBy(query));
    }

    // ------------------------------------------------------- the handlers

    /** VisibleProcesses and TopProcesses agree with the table. */
    ghost predicate Derived()
      requires Valid()
      reads this, Kids(), Models, processes, visibleProcesses, topProcesses
    {
      visibleProcesses.items == VisibleTarget() && topProcesses.items == TopTarget()
    }

    /**
     * The body of OnSortColumnChanged, OnSortDescendingChanged and TogglePin:
     * a forced sort, which leaves the throttle's clock alone, then the
     * filtered list and the top five. The order the sort gives is the
     * contract of ApplySortOnly.
     */
    method ResortAll(depth: nat)
      requires Valid()
      modifies this`lastSortApplyMs, this`smoothedCpu, this`smoothedMem, this`smoothedGpu
      modifies processes, visibleProcesses, topProcesses
      ensures Valid() && Derived()
      ensures multiset(processes.items) == old(multiset(processes.items))
      ensures lastSortApplyMs == old(lastSortApplyMs)
    {
      ApplySortOnly(true, 0, depth);
      RefreshDerived();
    }

    /** UpdateVisibleProcesses then RefreshTopProcesses: both lists brought up to date with the table. */
    method RefreshDerived()
      requires Valid()
      modifies visibleProcesses, topProcesses
      ensures Valid() && Derived()
      ensures visibleProcesses.items == old(VisibleTarget()) && topProcesses.items == old(TopTarget())
    {
      ListsApart();
      label Entry:
      UpdateVisibleProcesses();
      TopKept@Entry();
      VisibleKept@Entry();
      label Visible:
      RefreshTopProcesses();
      VisibleKept@Visible();
      TopKept@Visible();
    }

    /** TopTarget reads the table and its rows only. */
    twostate lemma TopKept()
      requires unchanged(this, processes) && unchanged(set m | m in processes.items)
      ensures TopTarget() == old(TopTarget())
    {
    }

    /** VisibleTarget reads the table, the models and their Children only. */
    twostate lemma VisibleKept()
      requires old(ChildListsOk() && forall x :: x in processes.items ==> x in Models)
      requires unchanged(this, processes) && unchanged(old(Kids())) && unchanged(old(Models))
      ensures ChildListsOk() && forall x :: x in processes.items ==> x in Models
      ensures VisibleTarget() == old(VisibleTarget())
    {
      assert Kids() == old(Kids());
    }

    /** The three top-level lists are no model's Children. */
    lemma ListsApart()
      requires Valid()
      ensures processes !in Kids() && visibleProcesses !in Kids() && topProcesses !in Kids()
    {
    }

    /**
     * The end of UpdateProcesses: the top level reconciled with the new
     * rows, an unforced sort, then the filtered list and the top five.
     */
    method FinishRefresh(desired: seq<ProcessModel>, now: int, depth: nat)
      requires Valid() && ListIn(desired, Models)
      modifies this`lastSortApplyMs, this`smoothedCpu, this`smoothedMem, this`smoothedGpu
      modifies processes, visibleProcesses, topProcesses
      ensures Valid() && Derived() && multiset(processes.items) == multiset(desired)
      ensures lastSortApplyMs == Throttle(false, suppressSortDueToInteraction, old(lastSortApplyMs), now).last
    {
      ReconcileTopLevelOrder(desired);
      ApplySortOnly(false, now, depth);
      RefreshDerived();
    }

    /** A field write to the sort settings or the query leaves the structure as it was. */
    twostate lemma SettingsKept()
      requires old(Valid()) && Models == old(Models) && parentOf == old(parentOf)
      requires modelsByPid == old(modelsByPid) && groupModelsByName == old(groupModelsByName)
      requires unchanged(old(Kids())) && unchanged(processes, visibleProcesses, topProcesses)
      ensures Valid()
    {
    }

    /**
     * SetSort: the active column flips its direction; another becomes
     * active, then descending unless it is Name. Each property write that
     * changes a value runs that property's handler.
     */
    method SetSort(column: SortColumn, depth: nat)
      requires Valid()
      modifies this`sortColumn, this`sortDescending
      modifies this`lastSortApplyMs, this`smoothedCpu, this`smoothedMem, this`smoothedGpu
      modifies processes, visibleProcesses, topProcesses
      ensures (sortColumn, sortDescending) == NextSort(old(sortColumn), old(sortDescending), column)
      ensures Valid() && Derived()
      ensures multiset(processes.items) == old(multiset(processes.items)) && lastSortApplyMs == old(lastSortApplyMs)
    {
      if sortColumn == column {
        SetSortDescending(!sortDescending, depth);
      } else {
        SetSortColumn(column, depth);
        label Column:
        var descending := column != NameColumn;
        ghost var same := sortDescending == descending;
        SetSortDescending(descending, depth);
        if same {
          DerivedKept@Column();
        }
      }
    }

    /** Derived reads the lists, the table's rows and their Children only. */
    twostate lemma DerivedKept()
      requires old(Valid()) && old(Derived())
      requires unchanged(this, processes, visibleProcesses, topProcesses)
      requires unchanged(old(Kids())) && unchanged(old(Models))
      ensures Valid() && Derived()
    {
      VisibleKept();
      TopKept();
    }

    /**
     * The SortColumn setter: a new column is stored and OnSortColumnChanged
     * re-sorts by force and refreshes the lists; the current one changes nothing.
     */
    method SetSortColumn(column: SortColumn, depth: nat)
      requires Valid()
      modifies this`sortColumn
      modifies this`lastSortApplyMs, this`smoothedCpu, this`smoothedMem, this`smoothedGpu
      modifies processes, visibleProcesses, topProcesses
      ensures Valid() && sortColumn == column && sortDescending == old(sortDescending)
      ensures old(sortColumn) == column ==> unchanged(this, processes, visibleProcesses, topProcesses)
      ensures old(sortColumn) != column ==> Derived()
      ensures multiset(processes.items) == old(multiset(processes.items)) && lastSortApplyMs == old(lastSortApplyMs)
    {
      if sortColumn != column {
        sortColumn := column;
        SettingsKept();
        ResortAll(depth);
      }
    }

    /** The SortDescending setter, with OnSortDescendingChanged on a change. */
    method SetSortDescending(descending: bool, depth: nat)
      requires Valid()
      modifies this`sortDescending
      modifies this`lastSortApplyMs, this`smoothedCpu, this`smoothedMem, this`smoothedGpu
      modifies processes, visibleProcesses, topProcesses
      ensures Valid() && sortDescending == descending && sortColumn == old(sortColumn)
      ensures old(sortDescending) == descending ==> unchanged(this, processes, visibleProcesses, topProcesses)
      ensures old(sortDescending) != descending ==> Derived()
      ensures multiset(processes.items) == old(multiset(processes.items)) && lastSortApplyMs == old(lastSortApplyMs)
    {
      if sortDescending != descending {
        sortDescending := descending;
        SettingsKept();
        ResortAll(depth);
      }
    }

    /**
     * TogglePin: a null row is ignored; otherwise the row's pin flips and
     * the table is re-sorted by force, pinned subtrees first, and the lists
     * refreshed.
     */
    method TogglePin(model: ProcessModel?, depth: nat)
      requires Valid()
      modifies Present(model, null)`isPinned, Present(model, null)`notified
      modifies this`lastSortApplyMs, this`smoothedCpu, this`smoothedMem, this`smoothedGpu
      modifies processes, visibleProcesses, topProcesses
      ensures Valid()
      ensures model == null ==> unchanged(this, processes, visibleProcesses, topProcesses)
      ensures model != null ==> model.isPinned == !old(model.isPinned) && Derived()
      ensures multiset(processes.items) == old(multiset(processes.items)) && lastSortApplyMs == old(lastSortApplyMs)
    {
      if model == null {
        return;
      }
      model.SetIsPinned(!model.isPinned);
      SettingsKept();
      ResortAll(depth);
    }

    /** TopTarget reads the sort settings and the rows' names and figures only. */
    twostate lemma TopKeptOn()
      requires sortColumn == old(sortColumn) && sortDescending == old(sortDescending) && unchanged(processes)
      requires forall m | m in processes.items ::
        m.name == old(m.name) && m.cpuPercent == old(m.cpuPercent) && m.memoryBytes == old(m.memoryBytes) && m.gpuPercent == old(m.gpuPercent)
      ensures TopTarget() == old(TopTarget())
    {
      assert TopKeys() == old(TopKeys());
    }

    /**
     * SearchQuery's setter: a new query runs OnSearchQueryChanged; the
     * current query changes nothing.
     */
    method SetSearchQuery(query: string)
      requires Valid()
      modifies this`searchQuery, this`selectedProcess, Present(selectedProcess, null)`isSelected, Present(selectedProcess, null)`notified
      modifies visibleProcesses
      ensures Valid() && searchQuery == query && unchanged(topProcesses)
      ensures old(searchQuery) == query ==> unchanged(this, visibleProcesses) && unchanged(Present(old(selectedProcess), null))
      ensures old(searchQuery) != query ==> selectedProcess == null && visibleProcesses.items == VisibleTarget()
      ensures old(Derived()) ==> Derived()
    {
      if searchQuery != query {
        Refilter(query);
      }
    }

    /**
     * The new query stored, then OnSearchQueryChanged: the selection is
     * cleared and the table refiltered; the top five are untouched.
     */
    method Refilter(query: string)
      requires Valid()
      modifies this`searchQuery, this`selectedProcess, Present(selectedProcess, null)`isSelected, Present(selectedProcess, null)`notified
      modifies visibleProcesses
      ensures Valid() && searchQuery == query && selectedProcess == null && unchanged(topProcesses)
      ensures visibleProcesses.items == VisibleTarget()
      ensures TopTarget() == old(TopTarget())
    {
      TakeQuery(query);
      label Query:
      UpdateVisibleProcesses();
      VisibleKept@Query();
      TopKept@Query();
    }

    /** The first half of a new query: the text stored and the selection cleared. */
    method TakeQuery(query: string)
      requires Valid()
      modifies this`searchQuery, this`selectedProcess, Present(selectedProcess, null)`isSelected, Present(selectedProcess, null)`notified
      ensures Valid() && searchQuery == query && selectedProcess == null
      ensures unchanged(processes, visibleProcesses, topProcesses)
      ensures TopTarget() == old(TopTarget())
    {
      ListsApart();
      label Entry:
      searchQuery := query;
      SetSelectedProcess(null);
      SettingsKept@Entry();
      TopKeptOn@Entry();
    }
  }
}
