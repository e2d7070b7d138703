/**
 Platform-managed configuration: the desired distribution and the platform version handshake
 recorded in status.releases (internal/platformconfig/config.go).
 */
module PlatformConfig {
  import opened GoText

  const NAME_KEY: string := "distribution.name"
  const VERSION_KEY: string := "distribution.version"
  const PLATFORM_VERSION_KEY: string := "platformVersion"
  const PLATFORM_RELEASE: string := "platform"
  const STANDALONE: string := "Standalone"
  const SELF_MANAGED_RHOAI: string := "SelfManagedRHOAI"
  const OPEN_DATA_HUB: string := "OpenDataHub"
  const SPEC_SELF_MANAGED: string := "SelfManagedRhoai"
  const NO_VERSION: string := "0.0.0"
  const MAX_FIELD_LENGTH: nat := 64

  datatype Distribution = Distribution(name: string, version: string)

  const NO_DISTRIBUTION: Distribution := Distribution("", "")

  /** One Get of the platform ConfigMap: an API error, no such object, or its data. */
  datatype ConfigRead = Failed | Absent | Data(data: map<string, string>)

  function Field(data: map<string, string>, key: string): string {
    TrimSpace(if key in data then data[key] else "")
  }

  // ---------- Distribution ----------

  /** unicode.IsControl */
  predicate IsControl(c: char) {
    c as int < 0x20 || 0x7F <= c as int < 0xA0
  }

  predicate ValidVersion(version: string) {
    |version| <= MAX_FIELD_LENGTH && forall c :: c in version ==> !IsControl(c)
  }

  /** validateDistributionFields */
  predicate ValidFields(name: string, version: string) {
    && (name == "" || name == OPEN_DATA_HUB || name == SELF_MANAGED_RHOAI || name == STANDALONE)
    && ValidVersion(version)
  }

  /** ReadDesiredDistribution */
  function ReadDistribution(config: ConfigRead): Result<Distribution> {
    match config
    case Failed => Err
    case Absent => Ok(NO_DISTRIBUTION)
    case Data(data) =>
      var name, version := Field(data, NAME_KEY), Field(data, VERSION_KEY);
      if ValidFields(name, version) then Ok(Distribution(name, version)) else Err
  }

  /** ReadPlatformVersion */
  function ReadVersion(config: ConfigRead): Result<string> {
    match config
    case Failed => Err
    case Absent => Ok("")
    case Data(data) => Ok(Field(data, PLATFORM_VERSION_KEY))
  }

  /** DistributionNameFromPlatform */
  function NameFromPlatform(specPlatform: string): string {
    if specPlatform == SPEC_SELF_MANAGED then SELF_MANAGED_RHOAI
    else if specPlatform == OPEN_DATA_HUB then OPEN_DATA_HUB
    else ""
  }

  /** ResolveDesiredDistribution with the empty operator version the reconciler passes. */
  function ResolveDistribution(desired: Distribution, specPlatform: string): Distribution {
    if TrimSpace(desired.name) == "" && TrimSpace(desired.version) == "" then Distribution(STANDALONE, NO_VERSION)
    else
      var name := if desired.name == "" then NameFromPlatform(specPlatform) else desired.name;
      Distribution(if name == "" then STANDALONE else name, if desired.version == "" then NO_VERSION
        else desired.version)
  }

  /** DistributionAligned */
  predicate Aligned(desired: Distribution, current: Distribution) {
    desired.name != "" && desired == current
  }

  /** Whatever the configuration says, the resolved distribution is complete, so recording it
      aligns the status with it. */
  lemma ResolvedIsComplete(desired: Distribution, specPlatform: string)
    ensures ResolveDistribution(desired, specPlatform).name != ""
    ensures ResolveDistribution(desired, specPlatform).version != ""
    ensures Aligned(ResolveDistribution(desired, specPlatform), ResolveDistribution(desired, specPlatform))
  {
    hide TrimSpace;
  }

  // ---------- Releases ----------

  datatype Release = Release(name: string, version: string, repoUrl: string)

  const NO_RELEASE: Release := Release("", "", "")

  function GetPlatformRelease(releases: seq<Release>): Release {
    if releases == [] then NO_RELEASE
    else if releases[0].name == PLATFORM_RELEASE then releases[0]
    else GetPlatformRelease(releases[1..])
  }

  /** The platform version recorded in status.releases, "" if none. */
  function Recorded(releases: seq<Release>): string {
    GetPlatformRelease(releases).version
  }

  function SetFirst(releases: seq<Release>, version: string): seq<Release> {
    if releases == [] then [Release(PLATFORM_RELEASE, version, "")]
    else if releases[0].name == PLATFORM_RELEASE then [releases[0].(version := version)] + releases[1..]
    else [releases[0]] + SetFirst(releases[1..], version)
  }

  function SetPlatformRelease(releases: seq<Release>, version: string): seq<Release> {
    if TrimSpace(version) == "" then releases else SetFirst(releases, TrimSpace(version))
  }

  function WithoutPlatform(releases: seq<Release>): seq<Release> {
    if releases == [] then []
    else (if releases[0].name == PLATFORM_RELEASE then [] else [releases[0]]) + WithoutPlatform(releases[1..])
  }

  function MergeComponentReleases(componentReleases: seq<Release>, platformRelease: Release): seq<Release> {
    WithoutPlatform(componentReleases) +
    (if platformRelease.name == PLATFORM_RELEASE && TrimSpace(platformRelease.version) != "" then [platformRelease]
      else [])
  }

  /** HandshakeComplete */
  predicate HandshakeComplete(platformVersion: string, releases: seq<Release>) {
    TrimSpace(platformVersion) != "" && Recorded(releases) == TrimSpace(platformVersion)
  }

  /** HandshakeRequired */
  predicate HandshakeRequired(desired: Distribution) {
    desired.name != STANDALONE
  }

  /** GetPlatformRelease's loop. */
  method FindPlatformRelease(releases: seq<Release>) returns (r: Release)
    ensures r == GetPlatformRelease(releases)
  {
    for i := 0 to |releases|
      invariant GetPlatformRelease(releases) == GetPlatformRelease(releases[i..])
    {
      assert releases[i..][1..] == releases[i + 1..];
      if releases[i].name == PLATFORM_RELEASE {
        return releases[i];
      }
    }
    return NO_RELEASE;
  }

  /** SetPlatformRelease's loop, which replaces the version of the first platform entry in place. */
  method RecordPlatformRelease(releases: seq<Release>, version: string) returns (r: seq<Release>)
    ensures r == SetPlatformRelease(releases, version)
  {
    hide TrimSpace, SetFirst;
    var trimmed := TrimSpace(version);
    if trimmed == "" {
      return releases;
    }
    assert releases[..0] == [] && releases[0..] == releases;
    for i := 0 to |releases|
      invariant SetFirst(releases, trimmed) == releases[..i] + SetFirst(releases[i..], trimmed)
    {
      SetFirstStep(releases, i, trimmed);
      if releases[i].name == PLATFORM_RELEASE {
        return releases[i := releases[i].(version := trimmed)];
      }
    }
    SetFirstMissing(trimmed);
    assert releases[..|releases|] == releases && releases[|releases|..] == [];
    return releases + [Release(PLATFORM_RELEASE, trimmed, "")];
  }

  lemma SetFirstMissing(version: string)
    ensures SetFirst([], version) == [Release(PLATFORM_RELEASE, version, "")]
  {
  }

  lemma SetFirstStep(releases: seq<Release>, i: nat, version: string)
    requires i < |releases|
    ensures releases[..i] + SetFirst(releases[i..], version) ==
      if releases[i].name == PLATFORM_RELEASE then releases[i := releases[i].(version := version)]
      else releases[..i + 1] + SetFirst(releases[i + 1..], version)
  {
    assert releases[i..][1..] == releases[i + 1..];
    if releases[i].name == PLATFORM_RELEASE {
      var found := releases[i].(version := version);
      assert releases[..i] + ([found] + releases[i + 1..]) == releases[i := found];
    } else {
      var rest := SetFirst(releases[i + 1..], version);
      assert releases[..i] + ([releases[i]] + rest) == releases[..i] + [releases[i]] + rest;
      assert releases[..i] + [releases[i]] == releases[..i + 1];
    }
  }

  /** MergeComponentReleases' loop. */
  method MergeReleases(componentReleases: seq<Release>, platformRelease: Release) returns (merged: seq<Release>)
    ensures merged == MergeComponentReleases(componentReleases, platformRelease)
  {
    hide TrimSpace;
    merged := [];
    for i := 0 to |componentReleases|
      invariant WithoutPlatform(componentReleases) == merged + WithoutPlatform(componentReleases[i..])
    {
      assert componentReleases[i..][1..] == componentReleases[i + 1..];
      var rest := WithoutPlatform(componentReleases[i + 1..]);
      if componentReleases[i].name == PLATFORM_RELEASE {
        assert [] + rest == rest;
        continue;
      }
      assert merged + ([componentReleases[i]] + rest) == merged + [componentReleases[i]] + rest;
      merged := merged + [componentReleases[i]];
    }
    if platformRelease.name == PLATFORM_RELEASE && TrimSpace(platformRelease.version) != "" {
      merged := merged + [platformRelease];
    }
  }

  function PlatformEntries(releases: seq<Release>): nat {
    if releases == [] then 0
    else (if releases[0].name == PLATFORM_RELEASE then 1 else 0) + PlatformEntries(releases[1..])
  }

  /** At most one platform entry, and a recorded version is never blank. */
  predicate ValidReleases(releases: seq<Release>) {
    && PlatformEntries(releases) <= 1
    && (PlatformEntries(releases) == 1 ==>
      Recorded(releases) != "" && TrimSpace(Recorded(releases)) == Recorded(releases))
  }

  lemma {:induction false} WithoutPlatformEntry(releases: seq<Release>, last: seq<Release>)
    ensures PlatformEntries(WithoutPlatform(releases) + last) == PlatformEntries(last)
    ensures GetPlatformRelease(WithoutPlatform(releases) + last) == GetPlatformRelease(last)
  {
    if releases == [] {
      assert [] + last == last;
    } else {
      var rest := WithoutPlatform(releases[1..]);
      WithoutPlatformEntry(releases[1..], last);
      if releases[0].name != PLATFORM_RELEASE {
        assert ([releases[0]] + rest + last)[1..] == rest + last;
      } else {
        assert [] + rest == rest;
      }
    }
  }

  lemma {:induction false} RecordedByCount(releases: seq<Release>)
    ensures PlatformEntries(releases) == 0 ==> GetPlatformRelease(releases) == NO_RELEASE
    ensures PlatformEntries(releases) > 0 ==> GetPlatformRelease(releases).name == PLATFORM_RELEASE
  {
    if releases != [] {
      RecordedByCount(releases[1..]);
    }
  }

  /** A release refresh keeps the recorded platform version, whatever the component metadata. */
  lemma MergeKeepsRecorded(componentReleases: seq<Release>, releases: seq<Release>)
    requires ValidReleases(releases)
    ensures var merged := MergeComponentReleases(componentReleases, GetPlatformRelease(releases));
      ValidReleases(merged) && Recorded(merged) == Recorded(releases)
  {
    hide TrimSpace;
    var p := GetPlatformRelease(releases);
    RecordedByCount(releases);
    var last := if p.name == PLATFORM_RELEASE && TrimSpace(p.version) != "" then [p] else [];
    WithoutPlatformEntry(componentReleases, last);
    assert [p][1..] == [];
  }

  lemma {:induction false} SetFirstRecords(releases: seq<Release>, version: string)
    ensures Recorded(SetFirst(releases, version)) == version
    ensures PlatformEntries(SetFirst(releases, version)) == if PlatformEntries(releases) == 0 then 1
      else PlatformEntries(releases)
    ensures WithoutPlatform(SetFirst(releases, version)) == WithoutPlatform(releases)
  {
    if releases == [] {
      assert SetFirst(releases, version)[1..] == [];
    } else if releases[0].name == PLATFORM_RELEASE {
      assert SetFirst(releases, version)[1..] == releases[1..];
    } else {
      SetFirstRecords(releases[1..], version);
      assert SetFirst(releases, version)[1..] == SetFirst(releases[1..], version);
    }
  }

  lemma TrimTwice(s: string)
    ensures TrimSpace(TrimSpace(s)) == TrimSpace(s)
  {
    hide TrimSpace;
    TrimSpaceMiddle(s);
    TrimSpaceMiddle(TrimSpace(s));
  }

  /** Recording a version makes the handshake for it complete and touches no other release. */
  lemma SetCompletesHandshake(releases: seq<Release>, version: string)
    requires ValidReleases(releases) && TrimSpace(version) != ""
    ensures var r := SetPlatformRelease(releases, version);
      HandshakeComplete(version, r) && ValidReleases(r) && WithoutPlatform(r) == WithoutPlatform(releases)
  {
    hide TrimSpace;
    SetFirstRecords(releases, TrimSpace(version));
    TrimTwice(version);
  }
}
