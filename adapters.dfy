/**
 * Matching a display adapter to its video-controller driver entry
 * (Services/SystemMonitorService.cs): adapter names are normalised, split
 * into tokens and compared by token overlap, with vendor cues as a
 * tie-breaker.
 */
module Adapters {
  import opened Text

  // ---- Normalising adapter names ----

  /** The pattern occurs nowhere in s. */
  predicate Absent(s: string, pat: string) {
    forall i :: 0 <= i <= |s| ==> !OccursAt(s, pat, i)
  }

  /** s.Replace(pat, ""): one left-to-right pass that drops each non-overlapping occurrence. */
  function RemoveOccurrences(s: string, pat: string): (r: string)
    requires pat != []
    ensures |r| <= |s|
    decreases |s|
  {
    if |s| < |pat| then s
    else if s[..|pat|] == pat then RemoveOccurrences(s[|pat|..], pat)
    else [s[0]] + RemoveOccurrences(s[1..], pat)
  }

  /** Removing a pattern that does not occur changes nothing. */
  lemma {:induction false} RemoveAbsent(s: string, pat: string)
    requires pat != [] && Absent(s, pat)
    ensures RemoveOccurrences(s, pat) == s
    decreases |s|
  {
    if |s| >= |pat| {
      assert !OccursAt(s, pat, 0);
      var tail := s[1..];
      forall i | 0 <= i <= |tail| ensures !OccursAt(tail, pat, i) {
        if i + |pat| <= |tail| {
          assert tail[i..i + |pat|] == s[i + 1..i + 1 + |pat|];
          assert !OccursAt(s, pat, i + 1);
        }
      }
      RemoveAbsent(tail, pat);
      assert s == [s[0]] + tail;
    }
  }

  /** Every white-space character is a plain space and no two spaces are adjacent. */
  predicate SpacesCollapsed(t: string) {
    && (forall i :: 0 <= i < |t| && IsWhiteSpace(t[i]) ==> t[i] == ' ')
    && (forall i :: 0 <= i < |t| - 1 ==> !(t[i] == ' ' && t[i + 1] == ' '))
  }

  /** Regex.Replace(s, "\\s+", " "): each run of white space becomes one space. */
  function CollapseWhiteSpace(s: string): (r: string)
    ensures SpacesCollapsed(r)
    ensures |r| <= |s|
    ensures s != [] ==> r != [] && (if IsWhiteSpace(s[0]) then r[0] == ' ' else r[0] == s[0])
    decreases |s|
  {
    if s == [] then []
    else if IsWhiteSpace(s[0]) then
      var rest := TrimStart(s[1..]);
      var tail := CollapseWhiteSpace(rest);
      assert tail != [] ==> !IsWhiteSpace(tail[0]);
      [' '] + tail
    else [s[0]] + CollapseWhiteSpace(s[1..])
  }

  /** A collapsed text is left as it is. */
  lemma {:induction false} CollapseOfCollapsed(s: string)
    requires SpacesCollapsed(s)
    ensures CollapseWhiteSpace(s) == s
    decreases |s|
  {
    if s != [] {
      var tail := s[1..];
      assert SpacesCollapsed(tail) by {
        forall i | 0 <= i < |tail| - 1 ensures !(tail[i] == ' ' && tail[i + 1] == ' ') {
          assert tail[i] == s[i + 1] && tail[i + 1] == s[i + 2];
        }
      }
      if IsWhiteSpace(s[0]) {
        assert tail == [] || !IsWhiteSpace(tail[0]) by {
          if tail != [] { assert tail[0] == s[1]; }
        }
        assert TrimStart(tail) == tail;
      }
      CollapseOfCollapsed(tail);
      assert s == [s[0]] + tail;
    }
  }

  /** A slice of a collapsed text is collapsed. */
  lemma SliceCollapsed(t: string, i: nat, j: nat)
    requires SpacesCollapsed(t) && i <= j <= |t|
    ensures SpacesCollapsed(t[i..j])
  {
    var u := t[i..j];
    forall k | 0 <= k < |u| ensures u[k] == t[i + k] { }
  }

  /** No text is at either end and no white space other than single spaces. */
  predicate NormalSpacing(t: string) {
    SpacesCollapsed(t) && (t == [] || (t[0] != ' ' && t[|t| - 1] != ' '))
  }

  /** Trim of a collapsed text: a collapsed text without a space at either end. */
  lemma TrimCollapsed(t: string)
    requires SpacesCollapsed(t)
    ensures NormalSpacing(Trim(t))
  {
    var a := TrimStart(t);
    SliceCollapsed(t, |t| - |a|, |t|);
    var b := TrimEnd(a);
    SliceCollapsed(a, 0, |b|);
  }

  /** The marks and words NormalizeAdapterName removes, upper-cased, in the order it removes them. */
  const Removed: seq<string> := ["(R)", "(TM)", "(C)", "GRAPHICS", "GPU", "VIDEO"]

  /** Upper-case, drop the trademark marks and the words GRAPHICS, GPU and VIDEO, collapse white space and trim. */
  function NormalizeAdapterName(s: string): (n: string)
    ensures NormalSpacing(n)
    ensures |n| <= |s|
  {
    var upper := ToUpper(s);
    var unmarked := RemoveOccurrences(RemoveOccurrences(RemoveOccurrences(upper, "(R)"), "(TM)"), "(C)");
    var stripped := RemoveOccurrences(RemoveOccurrences(RemoveOccurrences(unmarked, "GRAPHICS"), "GPU"), "VIDEO");
    var c := CollapseWhiteSpace(stripped);
    TrimCollapsed(c);
    Trim(c)
  }

  /** Already upper-case, without any removed word and normally spaced. */
  predicate IsNormalAdapterName(s: string) {
    && (forall i :: 0 <= i < |s| ==> Upper(s[i]) == s[i])
    && (forall k :: 0 <= k < |Removed| ==> Absent(s, Removed[k]))
    && NormalSpacing(s)
  }

  /** A name already in normal form is its own normalisation. */
  lemma NormalizeOfNormal(s: string)
    requires IsNormalAdapterName(s)
    ensures NormalizeAdapterName(s) == s
  {
    assert ToUpper(s) == s;
    assert forall k :: 0 <= k < |Removed| ==> Absent(s, Removed[k]);
    RemoveAbsent(s, Removed[0]);
    RemoveAbsent(s, Removed[1]);
    RemoveAbsent(s, Removed[2]);
    RemoveAbsent(s, Removed[3]);
    RemoveAbsent(s, Removed[4]);
    RemoveAbsent(s, Removed[5]);
    CollapseOfCollapsed(s);
    if s != [] {
      assert !IsWhiteSpace(s[0]) && !IsWhiteSpace(s[|s| - 1]);
      TrimOfTrimmed(s);
    }
  }

  // ---- Token overlap ----

  /** The distinct space-separated tokens of a text (Split with RemoveEmptyEntries into a HashSet). */
  function Tokens(s: string): (ts: set<string>)
    ensures forall t :: t in ts ==> t != [] && ' ' !in t
  {
    set t | t in RemoveEmpty(Split(s, ' '))
  }

  lemma SubsetSize<T>(a: set<T>, b: set<T>)
    requires a <= b
    ensures |a| <= |b|
    decreases |a|
  {
    if a != {} {
      var x :| x in a;
      SubsetSize(a - {x}, b - {x});
    }
  }

  function MinInt(a: int, b: int): int {
    if a <= b then a else b
  }

  /**
   * ComputeTokenOverlapScore: the number of shared tokens, plus one when
   * both names have at least three tokens.
   */
  function TokenOverlapScore(a: string, b: string): (score: nat)
    ensures score >= |Tokens(a) * Tokens(b)|
    ensures score <= |Tokens(a)| + 1 && score <= |Tokens(b)| + 1
    ensures Tokens(a) * Tokens(b) == {} && (|Tokens(a)| < 3 || |Tokens(b)| < 3) ==> score == 0
  {
    var at, bt := Tokens(a), Tokens(b);
    SubsetSize(at * bt, at);
    SubsetSize(at * bt, bt);
    |at * bt| + (if MinInt(|at|, |bt|) >= 3 then 1 else 0)
  }

  /** The score does not depend on the order of the names. */
  lemma TokenOverlapSymmetric(a: string, b: string)
    ensures TokenOverlapScore(a, b) == TokenOverlapScore(b, a)
  {
    assert Tokens(a) * Tokens(b) == Tokens(b) * Tokens(a);
  }

  // ---- Rough name matching ----

  /** Both normalised names carry the same vendor cue: NVIDIA, RADEON or AMD (one family), or INTEL. */
  predicate SharedVendor(na: string, nb: string) {
    || (Contains(na, "NVIDIA") && Contains(nb, "NVIDIA"))
    || ((Contains(na, "RADEON") || Contains(na, "AMD")) && (Contains(nb, "RADEON") || Contains(nb, "AMD")))
    || (Contains(na, "INTEL") && Contains(nb, "INTEL"))
  }

  /** The decision of NamesRoughlyMatch on two normalised names. */
  function NormalizedNamesMatch(na: string, nb: string): (r: bool)
    ensures IsBlank(na) || IsBlank(nb) ==> !r
    ensures !IsBlank(na) && !IsBlank(nb) && (EqualsIgnoreCase(na, nb) || TokenOverlapScore(na, nb) >= 2) ==> r
    ensures !IsBlank(na) && !IsBlank(nb) && SharedVendor(na, nb) ==> r
    ensures r ==> EqualsIgnoreCase(na, nb) || TokenOverlapScore(na, nb) >= 2 || SharedVendor(na, nb)
  {
    if IsBlank(na) || IsBlank(nb) then false
    else if EqualsIgnoreCase(na, nb) then true
    else if TokenOverlapScore(na, nb) >= 2 then true
    else if Contains(na, "NVIDIA") && Contains(nb, "NVIDIA") then true
    else if (Contains(na, "RADEON") || Contains(na, "AMD")) && (Contains(nb, "RADEON") || Contains(nb, "AMD")) then true
    else Contains(na, "INTEL") && Contains(nb, "INTEL")
  }

  /**
   * NamesRoughlyMatch: never for a name that is blank once normalised;
   * otherwise equal names, two overlapping tokens, or a shared vendor
   * (NVIDIA, RADEON or AMD, INTEL).
   */
  function NamesRoughlyMatch(a: string, b: string): (r: bool)
    ensures IsBlank(NormalizeAdapterName(a)) || IsBlank(NormalizeAdapterName(b)) ==> !r
    ensures var na, nb := NormalizeAdapterName(a), NormalizeAdapterName(b);
      r <==> !IsBlank(na) && !IsBlank(nb) && (EqualsIgnoreCase(na, nb) || TokenOverlapScore(na, nb) >= 2 || SharedVendor(na, nb))
  {
    NormalizedNamesMatch(NormalizeAdapterName(a), NormalizeAdapterName(b))
  }

  /** Matching is symmetric. */
  lemma NormalizedNamesMatchSymmetric(na: string, nb: string)
    ensures NormalizedNamesMatch(na, nb) == NormalizedNamesMatch(nb, na)
  {
    TokenOverlapSymmetric(na, nb);
  }

  lemma NamesRoughlyMatchSymmetric(a: string, b: string)
    ensures NamesRoughlyMatch(a, b) == NamesRoughlyMatch(b, a)
  {
    NormalizedNamesMatchSymmetric(NormalizeAdapterName(a), NormalizeAdapterName(b));
  }

  /** A name that is not blank once normalised matches itself. */
  lemma NamesRoughlyMatchReflexive(a: string)
    requires !IsBlank(NormalizeAdapterName(a))
    ensures NamesRoughlyMatch(a, a)
  {
  }

  // ---- Driver matching ----

  /** One Win32_VideoController row. */
  datatype VideoController = VideoController(name: string, driverVersion: string, driverDate: string, pnpId: string)

  /** The vendor bonus: NVIDIA +2, RADEON +2, AMD +1, INTEL +2 when both names carry the word. */
  function VendorBonus(normAdapter: string, normController: string): (bonus: nat)
    ensures bonus <= 7
  {
    (if Contains(normAdapter, "NVIDIA") && Contains(normController, "NVIDIA") then 2 else 0) +
    (if Contains(normAdapter, "RADEON") && Contains(normController, "RADEON") then 2 else 0) +
    (if Contains(normAdapter, "AMD") && Contains(normController, "AMD") then 1 else 0) +
    (if Contains(normAdapter, "INTEL") && Contains(normController, "INTEL") then 2 else 0)
  }

  /** The score of one controller against the normalised adapter name. */
  function DriverScore(normAdapter: string, c: VideoController): (score: nat)
    ensures score >= TokenOverlapScore(normAdapter, NormalizeAdapterName(c.name))
  {
    var normC := NormalizeAdapterName(c.name);
    TokenOverlapScore(normAdapter, normC) + VendorBonus(normAdapter, normC)
  }

  /** The scoring of controllers against one normalised adapter name. */
  function ScoreAgainst(normAdapter: string): (VideoController -> nat) {
    (c: VideoController) => DriverScore(normAdapter, c)
  }

  /** The scoring of controllers against an adapter name as the driver lookup sees it. */
  function AdapterScoring(adapterName: string): (VideoController -> nat) {
    ScoreAgainst(NormalizeAdapterName(adapterName))
  }

  /** The score of every controller, in order. */
  function ScoresBy(controllers: seq<VideoController>, score: VideoController -> nat): (scores: seq<nat>)
    ensures |scores| == |controllers|
    ensures forall k :: 0 <= k < |controllers| ==> scores[k] == score(controllers[k])
  {
    seq(|controllers|, k requires 0 <= k < |controllers| => score(controllers[k]))
  }

  /** Index i holds the highest score, and every index before it a lower one. */
  predicate FirstMax(scores: seq<int>, i: int) {
    && 0 <= i < |scores|
    && (forall k :: 0 <= k < |scores| ==> scores[k] <= scores[i])
    && (forall k :: 0 <= k < i ==> scores[k] < scores[i])
  }

  /** Only one index is the first maximum. */
  lemma FirstMaxUnique(scores: seq<int>, i: int, j: int)
    requires FirstMax(scores, i) && FirstMax(scores, j)
    ensures i == j
  {
    assert scores[j] <= scores[i] && scores[i] <= scores[j];
  }

  /**
   * TryMatchDriverForAdapter: nothing without controllers; the first
   * controller for a blank adapter name; otherwise the first controller of
   * the highest score.
   */
  method TryMatchDriverForAdapter(adapterName: string, controllers: seq<VideoController>) returns (version: string, date: string)
    ensures controllers == [] ==> version == "" && date == ""
    ensures controllers != [] && IsBlank(adapterName) ==>
      version == controllers[0].driverVersion && date == controllers[0].driverDate
    ensures controllers != [] && !IsBlank(adapterName) ==>
      exists i :: (FirstMax(ScoresBy(controllers, AdapterScoring(adapterName)), i) &&
        version == controllers[i].driverVersion && date == controllers[i].driverDate)
  {
    if controllers == [] {
      return "", "";
    }
    if IsBlank(adapterName) {
      return controllers[0].driverVersion, controllers[0].driverDate;
    }
    version, date := BestDriver(controllers, AdapterScoring(adapterName));
  }

  /** The driver of the first controller of the highest score. */
  method BestDriver(controllers: seq<VideoController>, score: VideoController -> nat) returns (version: string, date: string)
    requires controllers != []
    ensures exists i :: (FirstMax(ScoresBy(controllers, score), i) &&
      version == controllers[i].driverVersion && date == controllers[i].driverDate)
  {
    var best := FirstBestController(controllers, score);
    version, date := controllers[best].driverVersion, controllers[best].driverDate;
  }

  /** The scoring loop: a controller replaces the best so far only with a strictly higher score. */
  method FirstBestController(controllers: seq<VideoController>, score: VideoController -> nat) returns (best: nat)
    requires controllers != []
    ensures FirstMax(ScoresBy(controllers, score), best)
  {
    ghost var scores := ScoresBy(controllers, score);
    best := 0;
    var bestScore: int := -1;
    var i := 0;
    while i < |controllers|
      invariant 0 <= i <= |controllers|
      invariant i == 0 ==> bestScore == -1 && best == 0
      invariant i > 0 ==> best < i && bestScore == scores[best]
      invariant forall k :: 0 <= k < i ==> scores[k] <= bestScore
      invariant forall k :: 0 <= k < best ==> scores[k] < bestScore
    {
      var s := score(controllers[i]);
      if s > bestScore {
        bestScore := s;
        best := i;
      }
      i := i + 1;
    }
  }
}
