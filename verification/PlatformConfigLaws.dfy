/**
 What the platform configuration means for the status, stated on the ConfigMap's data and on the
 release lists themselves.
 */
module PlatformConfigLaws {
  import opened GoText
  import opened PlatformConfig

  // ---------- Distribution ----------

  /** A trimmed field of a ConfigMap that was read; a missing object or key reads as empty. */
  function Setting(config: ConfigRead, key: string): string {
    if config.Data? && key in config.data then TrimSpace(config.data[key]) else ""
  }

  lemma FieldIsSetting(config: ConfigRead, key: string)
    requires config.Data?
    ensures Field(config.data, key) == Setting(config, key)
  {
    TrimEmpty();
  }

  lemma TrimEmpty()
    ensures TrimSpace("") == ""
  {
  }

  /** The configured distribution cannot be used: an unknown name, or a version that is too long or
      has a control character. */
  predicate Unusable(name: string, version: string) {
    || name !in {"", "OpenDataHub", "SelfManagedRHOAI", "Standalone"}
    || |version| > 64
    || exists i :: 0 <= i < |version| && (version[i] as int < 32 || 127 <= version[i] as int <= 159)
  }

  /** Reading the distribution fails exactly when the API call does or the setting is unusable. */
  lemma ReadFails(config: ConfigRead)
    ensures ReadDistribution(config).Err? <==>
      config.Failed? || Unusable(Setting(config, "distribution.name"), Setting(config, "distribution.version"))
  {
    assert !Unusable("", "");
    hide TrimSpace, ValidFields, Unusable;
    if config.Data? {
      FieldIsSetting(config, "distribution.name");
      FieldIsSetting(config, "distribution.version");
      UnusableIsInvalid(Setting(config, "distribution.name"), Setting(config, "distribution.version"));
    }
  }

  lemma UnusableIsInvalid(name: string, version: string)
    ensures Unusable(name, version) <==> !ValidFields(name, version)
  {
    if i :| 0 <= i < |version| && (version[i] as int < 32 || 127 <= version[i] as int <= 159) {
      assert version[i] in version && IsControl(version[i]);
    }
  }

  /** The distribution a reconcile aligns with: a configured name or version wins; with nothing
      configured it is Standalone at 0.0.0, whatever the platform; otherwise a missing name follows
      the platform and a missing version is 0.0.0. */
  lemma ResolvedMeaning(config: ConfigRead, platform: string)
    requires ReadDistribution(config).Ok?
    ensures var name, version := Setting(config, "distribution.name"), Setting(config, "distribution.version");
      var resolved := ResolveDistribution(ReadDistribution(config).value, platform);
      && resolved.version == (if version == "" then "0.0.0" else version)
      && resolved.name == (if name != "" then name
                           else if version == "" then "Standalone"
                           else if platform == "OpenDataHub" then "OpenDataHub"
                           else if platform == "SelfManagedRhoai" then "SelfManagedRHOAI"
                           else "Standalone")
  {
    TrimEmpty();
    hide TrimSpace;
    assert "OpenDataHub" != "SelfManagedRhoai" by { assert "OpenDataHub"[0] != "SelfManagedRhoai"[0]; }
    if config.Data? {
      FieldIsSetting(config, "distribution.name");
      FieldIsSetting(config, "distribution.version");
      SettingTrimmed(config, "distribution.name");
      SettingTrimmed(config, "distribution.version");
    }
  }

  lemma SettingTrimmed(config: ConfigRead, key: string)
    ensures TrimSpace(Setting(config, key)) == Setting(config, key)
  {
    TrimEmpty();
    hide TrimSpace;
    if config.Data? && key in config.data {
      TrimTwice(config.data[key]);
    }
  }

  /** The platform version read is the trimmed setting; only a failing API call is an error. */
  lemma VersionMeaning(config: ConfigRead)
    ensures ReadVersion(config) == if config.Failed? then Err else Ok(Setting(config, "platformVersion"))
  {
    if config.Data? {
      hide TrimSpace;
      FieldIsSetting(config, "platformVersion");
    }
  }

  // ---------- Releases ----------

  predicate IsPlatform(r: Release) {
    r.name == "platform"
  }

  /** rs[i] is the first platform entry. */
  predicate FirstAt(rs: seq<Release>, i: int) {
    0 <= i < |rs| && IsPlatform(rs[i]) && forall j :: 0 <= j < i ==> !IsPlatform(rs[j])
  }

  /** The recorded version is that of the first platform entry, and empty without one. */
  lemma {:induction false} RecordedMeaning(rs: seq<Release>)
    ensures (forall i :: 0 <= i < |rs| ==> !IsPlatform(rs[i])) ==> GetPlatformRelease(rs) == Release("", "", "")
    ensures forall i :: FirstAt(rs, i) ==> GetPlatformRelease(rs) == rs[i]
  {
    if rs != [] {
      RecordedMeaning(rs[1..]);
      forall i | FirstAt(rs, i) ensures GetPlatformRelease(rs) == rs[i] {
        if i > 0 {
          assert FirstAt(rs[1..], i - 1);
        }
      }
    }
  }

  /** Recording a version that is not blank changes the version of the first platform entry alone, or
      appends an entry; a blank one changes nothing. */
  lemma RecordingMeaning(rs: seq<Release>, version: string)
    ensures TrimSpace(version) == "" ==> SetPlatformRelease(rs, version) == rs
    ensures TrimSpace(version) != "" && (forall i :: 0 <= i < |rs| ==> !IsPlatform(rs[i])) ==>
      SetPlatformRelease(rs, version) == rs + [Release("platform", TrimSpace(version), "")]
    ensures forall i :: TrimSpace(version) != "" && FirstAt(rs, i) ==>
      SetPlatformRelease(rs, version) == rs[i := Release("platform", TrimSpace(version), rs[i].repoUrl)]
  {
    hide TrimSpace;
    if TrimSpace(version) != "" {
      if forall i :: 0 <= i < |rs| ==> !IsPlatform(rs[i]) {
        SetFirstNone(rs, TrimSpace(version));
      }
      forall i | FirstAt(rs, i)
        ensures SetFirst(rs, TrimSpace(version)) == rs[i := Release("platform", TrimSpace(version), rs[i].repoUrl)]
      {
        SetFirstAt(rs, i, TrimSpace(version));
      }
    }
  }

  lemma {:induction false} SetFirstNone(rs: seq<Release>, version: string)
    requires forall i :: 0 <= i < |rs| ==> !IsPlatform(rs[i])
    ensures SetFirst(rs, version) == rs + [Release("platform", version, "")]
  {
    if rs != [] {
      SetFirstNone(rs[1..], version);
      assert !IsPlatform(rs[0]);
    }
  }

  lemma {:induction false} SetFirstAt(rs: seq<Release>, i: nat, version: string)
    requires FirstAt(rs, i)
    ensures SetFirst(rs, version) == rs[i := Release("platform", version, rs[i].repoUrl)]
  {
    if i > 0 {
      SetFirstAt(rs[1..], i - 1, version);
    } else {
      assert SetFirst(rs, version) == [rs[0].(version := version)] + rs[1..];
    }
  }

  /** A refresh lists the component metadata in order without its platform entries, then the platform
      entry recorded before, if its version is not blank. */
  lemma RefreshMeaning(components: seq<Release>, platform: Release)
    ensures MergeComponentReleases(components, platform) ==
      WithoutPlatform(components)
      + (if platform.name == "platform" && TrimSpace(platform.version) != "" then [platform] else [])
  {
    hide TrimSpace;
  }

  /** What it means to go without the platform entries: one entry at a time, in order. */
  lemma WithoutPlatformMeaning(a: seq<Release>, b: seq<Release>)
    ensures WithoutPlatform(a + b) == WithoutPlatform(a) + WithoutPlatform(b)
    ensures |a| == 1 ==> WithoutPlatform(a) == if a[0].name == "platform" then [] else a
  {
    hide WithoutPlatform;
    WithoutPlatformConcat(a, b);
    if |a| == 1 {
      WithoutPlatformOne(a);
    }
  }

  lemma WithoutPlatformOne(a: seq<Release>)
    requires |a| == 1
    ensures WithoutPlatform(a) == if a[0].name == "platform" then [] else a
  {
    assert a[1..] == [] && WithoutPlatform(a[1..]) == [];
    assert a == [a[0]];
  }

  lemma {:induction false} WithoutPlatformConcat(a: seq<Release>, b: seq<Release>)
    ensures WithoutPlatform(a + b) == WithoutPlatform(a) + WithoutPlatform(b)
  {
    if a == [] {
      assert a + b == b;
    } else {
      WithoutPlatformConcat(a[1..], b);
      assert (a + b)[0] == a[0] && (a + b)[1..] == a[1..] + b;
      var first := if a[0].name == PLATFORM_RELEASE then [] else [a[0]];
      Reassociate(first, WithoutPlatform(a[1..]), WithoutPlatform(b));
    }
  }

  lemma Reassociate(a: seq<Release>, b: seq<Release>, c: seq<Release>)
    ensures a + (b + c) == a + b + c
  {
  }
}
