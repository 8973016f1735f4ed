/**
 * The update service: parsing release tags into versions, choosing the
 * newest suitable release and its installer asset from the releases the
 * hosting service lists, and the guarded check that reports whether an
 * update is available.
 */
module Updates {
  import opened Wrappers
  import opened Text
  import Collections

  /** System.Version with all four components defined. */
  datatype Version = Version(major: int, minor: int, build: int, revision: int)

  const ZeroVersion := Version(0, 0, 0, 0)

  /** Version.CompareTo: lexicographic over major, minor, build, revision. */
  predicate Less(a: Version, b: Version) {
    || a.major < b.major
    || (a.major == b.major && a.minor < b.minor)
    || (a.major == b.major && a.minor == b.minor && a.build < b.build)
    || (a.major == b.major && a.minor == b.minor && a.build == b.build && a.revision < b.revision)
  }

  /** The version order is a strict total order, so "latest > current" is well defined. */
  lemma LessIsStrictTotalOrder(a: Version, b: Version, c: Version)
    ensures !Less(a, a)
    ensures Less(a, b) ==> !Less(b, a)
    ensures Less(a, b) && Less(b, c) ==> Less(a, c)
    ensures a == b || Less(a, b) || Less(b, a)
  {
  }

  // ----- TryParseVersion -----

  /** Drops one leading v or V (an ordinal case-insensitive StartsWith("v")). */
  function DropV(s: string): (r: string)
    ensures r == s || (s != [] && r == s[1..] && (s[0] == 'v' || s[0] == 'V'))
  {
    if s != [] && (s[0] == 'v' || s[0] == 'V') then s[1..] else s
  }

  /** Everything before the first '-'; all of the text when it has none. */
  function CutAtDash(s: string): (r: string)
    ensures '-' !in r
    ensures |r| <= |s| && r == s[..|r|]
    ensures r == s <==> '-' !in s
  {
    var dash := IndexOfChar(s, '-');
    if dash >= 0 then s[..dash] else s
  }

  /** Trim, drop a leading v, and cut at the first '-'. */
  function VersionCore(tag: string): (r: string)
    ensures '-' !in r
  {
    CutAtDash(DropV(Trim(tag)))
  }

  /** The non-empty dot-separated parts of the version core. */
  function VersionParts(tag: string): (parts: seq<string>)
  {
    RemoveEmpty(Split(VersionCore(tag), '.'))
  }

  /** A part's number; a part that is not an int counts as 0. */
  function PartNumber(parts: seq<string>, i: nat): (n: int)
    ensures i < |parts| && ParseInt(parts[i]).Some? ==> n == ParseInt(parts[i]).value
    ensures !(i < |parts| && ParseInt(parts[i]).Some?) ==> n == 0
  {
    if i < |parts| then ParseInt(parts[i]).GetOr(0) else 0
  }

  /** What TryParseVersion returns: None for a null or blank tag or fewer than
    * two parts; otherwise the first four parts, missing ones as 0. */
  function ParseVersion(tag: Option<string>): (r: Option<Version>)
  {
    match tag
    case None => None
    case Some(t) =>
      if IsBlank(t) then None
      else
        var parts := VersionParts(t);
        if |parts| < 2 then None
        else Some(Version(PartNumber(parts, 0), PartNumber(parts, 1), PartNumber(parts, 2), PartNumber(parts, 3)))
  }

  /** The loop of TryParseVersion over any parser: the first parts (at most
    * four) parsed into the slots of the buffer, the other slots left alone. */
  method ParseIntoSlots(parts: seq<string>, nums: array<int>, parse: string -> int)
    requires nums.Length == 4
    requires forall k :: 0 <= k < 4 ==> nums[k] == 0
    modifies nums
    ensures forall k :: 0 <= k < 4 ==> nums[k] == (if k < |parts| then parse(parts[k]) else 0)
  {
    var count := if |parts| < 4 then |parts| else 4;
    var i := 0;
    while i < count
      invariant 0 <= i <= count
      invariant forall k :: 0 <= k < i ==> nums[k] == parse(parts[k])
      invariant forall k :: i <= k < 4 ==> nums[k] == 0
    {
      nums[i] := parse(parts[i]);
      i := i + 1;
    }
  }

  /** The loop of TryParseVersion: int.TryParse of each of the first four
    * parts, a part that is not an int leaving 0 behind. */
  method ReadParts(parts: seq<string>, nums: array<int>)
    requires nums.Length == 4
    requires forall k :: 0 <= k < 4 ==> nums[k] == 0
    modifies nums
    ensures forall k :: 0 <= k < 4 ==> nums[k] == PartNumber(parts, k)
  {
    ParseIntoSlots(parts, nums, s => ParseInt(s).GetOr(0));
  }

  /** TryParseVersion, with its four-slot buffer; the components a short tag
    * lacks stay 0. */
  method TryParseVersion(tag: Option<string>) returns (ok: bool, version: Version)
    ensures ok <==> ParseVersion(tag).Some?
    ensures version == ParseVersion(tag).GetOr(ZeroVersion)
  {
    version := ZeroVersion;
    if tag.None? || IsBlank(tag.value) { return false, version; }
    var parts := VersionParts(tag.value);
    if |parts| < 2 { return false, version; }
    var nums := new int[4](_ => 0);
    ReadParts(parts, nums);
    var count := if |parts| < 4 then |parts| else 4;
    version := Version(nums[0], nums[1], if count > 2 then nums[2] else 0, if count > 3 then nums[3] else 0);
    ok := true;
  }

  /** GetCurrentVersion: the package version when the app runs packaged,
    * else the informational version when it parses, else the assembly
    * version, else 0.0.0.0. The three sources are parameters. */
  function CurrentVersion(package: Option<Version>, informational: Option<string>, assembly: Option<Version>)
    : (v: Version)
    ensures package.Some? ==> v == package.value
    ensures package.None? && ParseVersion(informational).Some? ==> v == ParseVersion(informational).value
    ensures package.None? && ParseVersion(informational).None? && assembly.Some? ==> v == assembly.value
    ensures package.None? && ParseVersion(informational).None? && assembly.None? ==> v == ZeroVersion
  {
    if package.Some? then package.value
    else if ParseVersion(informational).Some? then ParseVersion(informational).value
    else assembly.GetOr(ZeroVersion)
  }

  /** A character of a trimmed string is a character of the string. */
  lemma TrimChars(s: string, c: char)
    requires c !in s
    ensures c !in Trim(s)
  {
    var t := TrimStart(s);
    assert forall k :: 0 <= k < |t| ==> t[k] == s[|s| - |t| + k];
    var u := TrimEnd(t);
    assert forall k :: 0 <= k < |u| ==> u[k] == t[k];
  }

  /** Without a '-' an int cannot parse negative. */
  lemma ParseIntNoMinus(s: string)
    requires '-' !in s
    ensures ParseInt(s).Some? ==> ParseInt(s).value >= 0
  {
    TrimChars(s, '-');
  }

  /** The parts outlive the cut at '-', so no component is negative: the
    * Version constructor never sees a negative argument. */
  lemma ParsedVersionNonNegative(tag: Option<string>)
    requires ParseVersion(tag).Some?
    ensures var v := ParseVersion(tag).value;
      v.major >= 0 && v.minor >= 0 && v.build >= 0 && v.revision >= 0
  {
    var parts := VersionParts(tag.value);
    var core := VersionCore(tag.value);
    forall i | 0 <= i < |parts| ensures PartNumber(parts, i) >= 0 {
      assert parts[i] in parts;
      PartOfCore(core, '.', parts[i]);
      ParseIntNoMinus(parts[i]);
    }
  }

  /** Each part of a split of a string without '-' has no '-'. */
  lemma PartOfCore(core: string, sep: char, p: string)
    requires '-' !in core
    requires p in RemoveEmpty(Split(core, sep))
    ensures '-' !in p
  {
    SplitPartsFrom(core, sep);
  }

  lemma {:induction false} SplitPartsFrom(s: string, sep: char)
    requires '-' !in s
    ensures forall p :: p in Split(s, sep) ==> '-' !in p
    decreases |s|
  {
    var k := IndexOfChar(s, sep);
    if k != -1 {
      var t := s[k + 1..];
      forall i | 0 <= i < |t| ensures t[i] != '-' {
        assert t[i] == s[k + 1 + i];
      }
      SplitPartsFrom(t, sep);
      var head := s[..k];
      assert Split(s, sep) == [head] + Split(t, sep);
      forall i | 0 <= i < |head| ensures head[i] != '-' {
        assert head[i] == s[i];
      }
    }
  }

  // ----- round trip: a tag printed from a version parses back -----

  lemma SplitNoSeparator(s: string, sep: char)
    requires sep !in s
    ensures Split(s, sep) == [s]
  {
  }

  lemma SplitAtSeparator(a: string, b: string, sep: char)
    requires sep !in a
    ensures Split(a + [sep] + b, sep) == [a] + Split(b, sep)
  {
    var s := a + [sep] + b;
    assert s[|a|] == sep;
    assert forall i :: 0 <= i < |a| ==> s[i] == a[i];
    assert IndexOfChar(s, sep) == |a|;
    assert s[..|a|] == a;
    assert s[|a| + 1..] == b;
  }

  lemma DigitsHaveNoPunctuation(s: string)
    requires AllDigits(s)
    ensures '.' !in s && '-' !in s
  {
  }

  /** The cut of a "v"-prefixed tag at its dash leaves the text between them. */
  lemma CoreOfTag(core: string, suffix: string)
    requires '-' !in core
    requires suffix == [] || !IsWhiteSpace(suffix[|suffix| - 1])
    ensures VersionCore("v" + core + "-" + suffix) == core
  {
    var tag := "v" + core + "-" + suffix;
    assert tag[0] == 'v' && !IsWhiteSpace(tag[|tag| - 1]);
    TrimOfTrimmed(tag);
    assert tag[1..] == core + "-" + suffix;
    assert DropV(tag) == core + "-" + suffix;
    CutBeforeDash(core, suffix);
  }

  lemma CutBeforeDash(core: string, suffix: string)
    requires '-' !in core
    ensures CutAtDash(core + "-" + suffix) == core
  {
    var rest := core + "-" + suffix;
    assert rest[|core|] == '-';
    assert forall i :: 0 <= i < |core| ==> rest[i] == core[i];
    assert IndexOfChar(rest, '-') == |core|;
    assert rest[..|core|] == core;
  }

  /** Three dot-free texts joined with dots split back into the three. */
  lemma SplitThree(a: string, b: string, c: string)
    requires '.' !in a && '.' !in b && '.' !in c
    ensures Split(a + "." + b + "." + c, '.') == [a, b, c]
  {
    SplitAtSeparator(a, b + "." + c, '.');
    assert a + "." + b + "." + c == a + ['.'] + (b + "." + c);
    SplitAtSeparator(b, c, '.');
    assert b + "." + c == b + ['.'] + c;
    SplitNoSeparator(c, '.');
  }

  lemma RemoveEmptyThree(a: string, b: string, c: string)
    requires a != [] && b != [] && c != []
    ensures RemoveEmpty([a, b, c]) == [a, b, c]
  {
    assert RemoveEmpty([c]) == [c] by { assert [c][1..] == []; }
    assert RemoveEmpty([b, c]) == [b, c] by { assert [b, c][1..] == [c]; }
    assert [a, b, c][1..] == [b, c];
  }

  /** A "v"-prefixed tag of three digit groups and a suffix splits into the groups. */
  lemma PartsOfTag(A: string, B: string, C: string, suffix: string)
    requires A != [] && B != [] && C != [] && AllDigits(A) && AllDigits(B) && AllDigits(C)
    requires suffix == [] || !IsWhiteSpace(suffix[|suffix| - 1])
    ensures !IsBlank("v" + A + "." + B + "." + C + "-" + suffix)
    ensures VersionParts("v" + A + "." + B + "." + C + "-" + suffix) == [A, B, C]
  {
    DigitsHaveNoPunctuation(A);
    DigitsHaveNoPunctuation(B);
    DigitsHaveNoPunctuation(C);
    var core := A + "." + B + "." + C;
    var tag := "v" + core + "-" + suffix;
    assert "v" + A + "." + B + "." + C + "-" + suffix == tag;
    assert '-' !in core;
    CoreOfTag(core, suffix);
    SplitThree(A, B, C);
    RemoveEmptyThree(A, B, C);
    assert tag[0] == 'v';
  }

  /** "v" + major.minor.build + "-" + suffix parses as that version with revision 0. */
  lemma TagRoundTrip(a: nat, b: nat, c: nat, suffix: string)
    requires InInt32(a) && InInt32(b) && InInt32(c)
    requires suffix == [] || !IsWhiteSpace(suffix[|suffix| - 1])
    ensures ParseVersion(Some("v" + NatToString(a) + "." + NatToString(b) + "." + NatToString(c) + "-" + suffix))
         == Some(Version(a, b, c, 0))
  {
    var A, B, C := NatToString(a), NatToString(b), NatToString(c);
    var tag := "v" + A + "." + B + "." + C + "-" + suffix;
    PartsOfTag(A, B, C, suffix);
    var parts := VersionParts(tag);
    PartNumberOfNat(parts, 0, a);
    PartNumberOfNat(parts, 1, b);
    PartNumberOfNat(parts, 2, c);
    assert ParseVersion(Some(tag)) == Some(Version(PartNumber(parts, 0), PartNumber(parts, 1), PartNumber(parts, 2), PartNumber(parts, 3)));
  }

  /** A part printed from an int reads back as that int. */
  lemma PartNumberOfNat(parts: seq<string>, i: nat, n: nat)
    requires InInt32(n) && i < |parts| && parts[i] == NatToString(n)
    ensures PartNumber(parts, i) == n
  {
    ParseIntToString(n);
    assert IntToString(n) == NatToString(n);
  }

  /** A single number is not a version. */
  lemma SinglePartRejected()
    ensures ParseVersion(Some("7")) == None
  {
    assert TrimStart("7") == "7";
    assert VersionCore("7") == "7";
    SplitNoSeparator("7", '.');
  }

  // ----- release and asset choice -----

  /** One listed release: `tagName` None when the property is missing (a JSON
    * null tag reads as ""), `name` None when missing or null,
    * `assets` None when missing or not an array. */
  datatype Release = Release(prerelease: bool, tagName: Option<string>, name: Option<string>, assets: Option<seq<Asset>>)

  datatype Asset = Asset(name: Option<string>, url: Option<string>)

  /** A release the loop does not skip: not a prerelease unless those are
    * wanted, with a tag, and a tag that parses as a version. */
  predicate Suitable(r: Release, includePrereleases: bool) {
    (includePrereleases || !r.prerelease) && r.tagName.Some? && ParseVersion(r.tagName).Some?
  }

  /** The index of the release the fetch settles on: the first suitable one
    * (the list is newest first). */
  function FirstSuitable(releases: seq<Release>, includePrereleases: bool): (r: Option<nat>)
    ensures r.Some? ==> r.value < |releases|
  {
    Collections.FirstWhere(releases, (rel: Release) => Suitable(rel, includePrereleases))
  }

  /** The chosen release is suitable, no earlier one is, and there is none
    * exactly when no release is suitable. */
  lemma FirstSuitableIsFirst(releases: seq<Release>, includePrereleases: bool)
    ensures var r := FirstSuitable(releases, includePrereleases);
      && (r.None? <==> forall k :: 0 <= k < |releases| ==> !Suitable(releases[k], includePrereleases))
      && (r.Some? ==> Suitable(releases[r.value], includePrereleases))
      && (r.Some? ==> forall k :: 0 <= k < r.value ==> !Suitable(releases[k], includePrereleases))
  {
    Collections.FirstWhereIsFirst(releases, (rel: Release) => Suitable(rel, includePrereleases));
  }

  lemma FirstSuitableAt(releases: seq<Release>, includePrereleases: bool, index: nat)
    requires index < |releases| && Suitable(releases[index], includePrereleases)
    requires forall k :: 0 <= k < index ==> !Suitable(releases[k], includePrereleases)
    ensures FirstSuitable(releases, includePrereleases) == Some(index)
  {
    Collections.FirstWhereAt(releases, (rel: Release) => Suitable(rel, includePrereleases), index);
  }

  /** One iteration of the release loop: the three `continue` tests of Suitable. */
  method CheckRelease(releases: seq<Release>, index: nat, includePrereleases: bool) returns (ok: bool)
    requires index < |releases|
    requires forall k :: 0 <= k < index ==> !Suitable(releases[k], includePrereleases)
    ensures ok == Suitable(releases[index], includePrereleases)
    ensures !ok ==> forall k :: 0 <= k < index + 1 ==> !Suitable(releases[k], includePrereleases)
  {
    ok := Suitable(releases[index], includePrereleases);
  }

  /** The first suitable release, with the early exit of the source loop. */
  method ChooseRelease(releases: seq<Release>, includePrereleases: bool) returns (found: bool, index: nat)
    ensures found ==> index < |releases| && Suitable(releases[index], includePrereleases)
    ensures found ==> forall k :: 0 <= k < index ==> !Suitable(releases[k], includePrereleases)
    ensures !found ==> forall k :: 0 <= k < |releases| ==> !Suitable(releases[k], includePrereleases)
  {
    index := 0;
    while index < |releases|
      invariant index <= |releases|
      invariant forall k :: 0 <= k < index ==> !Suitable(releases[k], includePrereleases)
    {
      var ok := CheckRelease(releases, index, includePrereleases);
      if ok {
        return true, index;
      }
      index := index + 1;
    }
    return false, 0;
  }

  const Extensions := [".msixbundle", ".msix", ".msi", ".exe", ".zip"]

  predicate Matches(a: Asset, ext: string) {
    a.name.Some? && a.name.value != [] && EndsWithIgnoreCase(a.name.value, ext)
  }

  predicate AnyMatches(assets: seq<Asset>, ext: string) {
    exists i :: 0 <= i < |assets| && Matches(assets[i], ext)
  }

  /** The asset the fetch reports: the first asset with the first extension
    * of the priority list, from extension `e` on, that any asset has. */
  function PreferredAsset(assets: seq<Asset>, priorities: seq<string>, e: nat): (r: Option<Asset>)
    ensures r.Some? ==> r.value in assets
    decreases |priorities| - e
  {
    if e >= |priorities| then None
    else
      match Collections.FirstWhere(assets, (a: Asset) => Matches(a, priorities[e]))
      case Some(i) => Some(assets[i])
      case None => PreferredAsset(assets, priorities, e + 1)
  }

  /** `a`, the asset at `i`, is the first with extension `f`, and no extension
    * from `e` up to `f` occurs. */
  predicate PreferredAt(assets: seq<Asset>, priorities: seq<string>, e: nat, a: Asset, f: nat, i: nat) {
    && e <= f < |priorities| && i < |assets|
    && a == assets[i] && Matches(a, priorities[f])
    && (forall g :: e <= g < f ==> !AnyMatches(assets, priorities[g]))
    && (forall j :: 0 <= j < i ==> !Matches(assets[j], priorities[f]))
  }

  /** There is no preferred asset exactly when no asset has any of the
    * extensions from `e` on. */
  lemma {:induction false} PreferredAssetNone(assets: seq<Asset>, priorities: seq<string>, e: nat)
    ensures PreferredAsset(assets, priorities, e).None? <==>
      forall f :: e <= f < |priorities| ==> !AnyMatches(assets, priorities[f])
    decreases |priorities| - e
  {
    if e < |priorities| {
      var p := (a: Asset) => Matches(a, priorities[e]);
      Collections.FirstWhereIsFirst(assets, p);
      if Collections.FirstWhere(assets, p).None? {
        assert !AnyMatches(assets, priorities[e]);
        PreferredAssetNone(assets, priorities, e + 1);
      }
    }
  }

  /** The preferred asset has the most preferred extension that occurs and is
    * the first asset with it. */
  lemma {:induction false} PreferredAssetIsPreferred(assets: seq<Asset>, priorities: seq<string>, e: nat)
    ensures var r := PreferredAsset(assets, priorities, e);
      r.Some? ==> exists f, i :: PreferredAt(assets, priorities, e, r.value, f, i)
    decreases |priorities| - e
  {
    if e < |priorities| {
      var p := (a: Asset) => Matches(a, priorities[e]);
      Collections.FirstWhereIsFirst(assets, p);
      var first := Collections.FirstWhere(assets, p);
      if first.Some? {
        var i := first.value;
        assert PreferredAt(assets, priorities, e, assets[i], e, i);
      } else {
        assert !AnyMatches(assets, priorities[e]);
        PreferredAssetIsPreferred(assets, priorities, e + 1);
        var r := PreferredAsset(assets, priorities, e + 1);
        if r.Some? {
          var f, i :| PreferredAt(assets, priorities, e + 1, r.value, f, i);
          assert PreferredAt(assets, priorities, e, r.value, f, i);
        }
      }
    }
  }

  /** One pass of the inner loop: the first asset with extension `e`. */
  method FindWithExtension(assets: seq<Asset>, priorities: seq<string>, e: nat) returns (found: Option<Asset>)
    requires e < |priorities|
    ensures found.None? ==> PreferredAsset(assets, priorities, e) == PreferredAsset(assets, priorities, e + 1)
    ensures found.Some? ==> found == PreferredAsset(assets, priorities, e)
  {
    var p := (a: Asset) => Matches(a, priorities[e]);
    var i := 0;
    while i < |assets|
      invariant i <= |assets|
      invariant forall j :: 0 <= j < i ==> !p(assets[j])
    {
      var a := assets[i];
      if a.name.Some? && a.name.value != [] && EndsWithIgnoreCase(a.name.value, priorities[e]) {
        Collections.FirstWhereAt(assets, p, i);
        return Some(a);
      }
      i := i + 1;
    }
    Collections.FirstWhereIsFirst(assets, p);
    return None;
  }

  /** The asset loop: extensions in priority order, assets in listed order. */
  method ChooseAsset(assets: seq<Asset>, priorities: seq<string>) returns (chosen: Option<Asset>)
    ensures chosen == PreferredAsset(assets, priorities, 0)
  {
    var e := 0;
    while e < |priorities|
      invariant e <= |priorities|
      invariant PreferredAsset(assets, priorities, e) == PreferredAsset(assets, priorities, 0)
    {
      chosen := FindWithExtension(assets, priorities, e);
      if chosen.Some? {
        return;
      }
      e := e + 1;
    }
    return None;
  }

  /** What a successful fetch reports. */
  datatype UpdateInfo = UpdateInfo(
    currentVersion: Version, latestVersion: Version, tagName: string, releaseName: string,
    assetName: Option<string>, assetDownloadUrl: Option<string>, isPrerelease: bool)

  /** The HTTP response for the release list: the listed releases, a
    * timeout, or a failure with its exception message. */
  datatype Response = Listed(releases: seq<Release>) | TimedOut | Failed(message: string)

  /** What FetchLatestReleaseAsync completes with: the info, a cancellation
    * (the timeout), or an exception with its message. */
  datatype FetchOutcome = Fetched(info: UpdateInfo) | Cancelled | Threw(message: string)

  const NoSuitableRelease := "No suitable release found."
  const TimedOutMessage := "Update check timed out"

  /** The outcome FetchLatestReleaseAsync completes with for a response. */
  function FetchResult(response: Response, includePrereleases: bool, current: Version): FetchOutcome {
    match response
    case TimedOut => Cancelled
    case Failed(message) => Threw(message)
    case Listed(releases) =>
      var k := FirstSuitable(releases, includePrereleases);
      if k.None? then Threw(NoSuitableRelease)
      else
        var chosen := releases[k.value];
        var asset := if chosen.assets.Some? then PreferredAsset(chosen.assets.value, Extensions, 0) else None;
        var tagName := chosen.tagName.GetOr("");
        Fetched(UpdateInfo(
          current,
          ParseVersion(chosen.tagName).GetOr(ZeroVersion),
          tagName,
          chosen.name.GetOr(tagName),
          if asset.Some? then asset.value.name else None,
          if asset.Some? then asset.value.url else None,
          chosen.prerelease))
  }

  /** The events the second half of a check appends for an outcome: the
    * verdict or the failure, then CheckingChanged. */
  function Reported(current: Version, outcome: FetchOutcome): (r: seq<UpdateEvent>)
    ensures |r| == 2 && r[1] == CheckingChanged
    ensures r[0].CheckFailed? <==> !outcome.Fetched?
    ensures outcome.Fetched? ==> (r[0].UpdateAvailable? <==> Less(current, outcome.info.latestVersion))
  {
    match outcome
    case Fetched(info) =>
      var latest := info.(currentVersion := current);
      [if Less(current, latest.latestVersion) then UpdateAvailable(latest) else NoUpdateAvailable(latest), CheckingChanged]
    case Cancelled => [CheckFailed(TimedOutMessage), CheckingChanged]
    case Threw(message) => [CheckFailed(message), CheckingChanged]
  }

  /** The info a check leaves behind: a fetched one with the current version, otherwise the previous one. */
  function InfoAfter(previous: Option<UpdateInfo>, current: Version, outcome: FetchOutcome): Option<UpdateInfo> {
    if outcome.Fetched? then Some(outcome.info.(currentVersion := current)) else previous
  }

  /** FetchLatestReleaseAsync: the info for the first suitable release and
    * its preferred asset, or the exception it ends with. */
  method FetchLatestRelease(response: Response, includePrereleases: bool, current: Version)
    returns (outcome: FetchOutcome)
    ensures response.TimedOut? ==> outcome == Cancelled
    ensures response.Failed? ==> outcome == Threw(response.message)
    ensures response.Listed? && FirstSuitable(response.releases, includePrereleases).None? ==>
      outcome == Threw(NoSuitableRelease)
    ensures response.Listed? && FirstSuitable(response.releases, includePrereleases).Some? ==>
      var chosen := response.releases[FirstSuitable(response.releases, includePrereleases).value];
      var asset := if chosen.assets.Some? then PreferredAsset(chosen.assets.value, Extensions, 0) else None;
      && chosen.tagName.Some?
      && outcome == Fetched(UpdateInfo(
           current,
           ParseVersion(chosen.tagName).GetOr(ZeroVersion),
           chosen.tagName.value,
           chosen.name.GetOr(chosen.tagName.value),
           if asset.Some? then asset.value.name else None,
           if asset.Some? then asset.value.url else None,
           chosen.prerelease))
    ensures outcome == FetchResult(response, includePrereleases, current)
  {
    match response {
      case TimedOut => return Cancelled;
      case Failed(message) => return Threw(message);
      case Listed(releases) =>
        var found, k := ChooseRelease(releases, includePrereleases);
        if !found {
          FirstSuitableIsFirst(releases, includePrereleases);
          return Threw(NoSuitableRelease);
        }
        FirstSuitableAt(releases, includePrereleases, k);
        var chosen := releases[k];
        var tagName := chosen.tagName.value;
        var _, latest := TryParseVersion(Some(tagName));
        var assetName: Option<string> := None;
        var url: Option<string> := None;
        if chosen.assets.Some? {
          var a := ChooseAsset(chosen.assets.value, Extensions);
          if a.Some? {
            assetName := a.value.name;
            url := a.value.url;
          }
        }
        return Fetched(UpdateInfo(current, latest, tagName, chosen.name.GetOr(tagName), assetName, url, chosen.prerelease));
    }
  }

  datatype UpdateEvent =
    | CheckingChanged
    | UpdateAvailable(info: UpdateInfo)
    | NoUpdateAvailable(info: UpdateInfo)
    | CheckFailed(message: string)

  /** The shared update service. A check runs in two halves around the
    * network request: BeginCheck up to the request, CompleteCheck after it. */
  class UpdateService {
    var repoOwner: string
    var repoName: string
    var includePrereleases: bool
    var isChecking: bool
    var lastInfo: Option<UpdateInfo>
    var events: seq<UpdateEvent>

    constructor ()
      ensures repoOwner == "bossman79" && repoName == "Bluetask"
      ensures !includePrereleases && !isChecking && lastInfo.None? && events == []
    {
      repoOwner := "bossman79";
      repoName := "Bluetask";
      includePrereleases := false;
      isChecking := false;
      lastInfo := None;
      events := [];
    }

    /** Blank or null names keep the previous owner and repository. */
    method Configure(owner: Option<string>, name: Option<string>, includePre: bool)
      modifies this`repoOwner, this`repoName, this`includePrereleases
      ensures repoOwner == (if owner.None? || IsBlank(owner.value) then old(repoOwner) else owner.value)
      ensures repoName == (if name.None? || IsBlank(name.value) then old(repoName) else name.value)
      ensures includePrereleases == includePre
    {
      repoOwner := if owner.None? || IsBlank(owner.value) then repoOwner else owner.value;
      repoName := if name.None? || IsBlank(name.value) then repoName else name.value;
      includePrereleases := includePre;
    }

    /** A check started while another runs returns at once and changes nothing. */
    method BeginCheck() returns (started: bool)
      modifies this`isChecking, this`events
      ensures started <==> !old(isChecking)
      ensures !started ==> unchanged(this)
      ensures started ==> isChecking && events == old(events) + [CheckingChanged]
    {
      if isChecking { return false; }
      isChecking := true;
      events := events + [CheckingChanged];
      return true;
    }

    /** The rest of a started check: record the info and report an update
      * exactly when the latest version is greater than the current one; an
      * exception is reported with its message. The flag drops and the
      * CheckingChanged event fires either way. */
    method CompleteCheck(current: Version, outcome: FetchOutcome)
      modifies this`isChecking, this`lastInfo, this`events
      ensures !isChecking
      ensures lastInfo == InfoAfter(old(lastInfo), current, outcome)
      ensures events == old(events) + Reported(current, outcome)
      ensures outcome.Fetched? ==>
        && lastInfo == Some(outcome.info.(currentVersion := current))
        && events == old(events) + [
             if Less(current, outcome.info.latestVersion) then UpdateAvailable(lastInfo.value)
             else NoUpdateAvailable(lastInfo.value),
             CheckingChanged]
      ensures outcome.Cancelled? ==>
        lastInfo == old(lastInfo) && events == old(events) + [CheckFailed(TimedOutMessage), CheckingChanged]
      ensures outcome.Threw? ==>
        lastInfo == old(lastInfo) && events == old(events) + [CheckFailed(outcome.message), CheckingChanged]
    {
      match outcome {
        case Fetched(info) =>
          var latest := info.(currentVersion := current);
          lastInfo := Some(latest);
          if Less(current, latest.latestVersion) {
            events := events + [UpdateAvailable(latest)];
          } else {
            events := events + [NoUpdateAvailable(latest)];
          }
        case Cancelled =>
          events := events + [CheckFailed(TimedOutMessage)];
        case Threw(message) =>
          events := events + [CheckFailed(message)];
      }
      isChecking := false;
      events := events + [CheckingChanged];
    }

    /** CheckForUpdatesAsync run to completion without interleaving: a
      * check already running makes it return at once; otherwise the flag is
      * raised, the fetch runs, and its outcome is reported between two
      * CheckingChanged events. */
    method CheckForUpdates(current: Version, response: Response)
      modifies this`isChecking, this`lastInfo, this`events
      ensures old(isChecking) ==> unchanged(this)
      ensures !old(isChecking) ==>
        && !isChecking
        && |events| == |old(events)| + 3
        && events[|old(events)|] == CheckingChanged
        && events[|events| - 1] == CheckingChanged
      ensures !old(isChecking) ==>
        var outcome := FetchResult(response, includePrereleases, current);
        && lastInfo == InfoAfter(old(lastInfo), current, outcome)
        && events == old(events) + [CheckingChanged] + Reported(current, outcome)
    {
      var started := BeginCheck();
      if started {
        var outcome := FetchLatestRelease(response, includePrereleases, current);
        CompleteCheck(current, outcome);
      }
    }
  }
}
