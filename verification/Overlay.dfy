/** The launch plan that a profile is made into, and when its script works. */
module Overlay {
  import opened Text
  import opened Launch

  datatype Provider = Codex | Claude | Gemini | Generic

  /** The parts of a profile that reach the environment. */
  datatype Profile = Profile(id: string, timezone: string, lang: string, lcAll: string, lcTime: Option<string>,
                             username: string, hostname: string)

  const CARRIER_UNSET: seq<string> :=
    ["WSL_DISTRO_NAME", "WSL_INTEROP", "WSLENV", "WSL2_GUI_APPS_ENABLED", "WSL_HOST", "WSL_DISTRO",
     "AGS_ENV_PROFILE", "AGS_BACKEND_KIND", "AGS_AGENT_PROVIDER"]

  /** Whether a variable gives the carrier away. */
  predicate IsCarrierKey(key: string) {
    || "WSL" <= key
    || key == "WT_SESSION"
    || key == "WSLENV"
    || "AGS_ENV_" <= key
    || key == "AGS_BACKEND_KIND"
  }

  /** `char::is_control` */
  predicate IsControl(c: char) {
    c < ' ' || '\U{7F}' <= c <= '\U{9F}'
  }

  /** What a profile id must be for the profile to load. */
  predicate ValidId(id: string) {
    !Blank(id) && forall i :: 0 <= i < |id| ==> !IsControl(id[i])
  }

  function HomeEntry(kind: Provider, home: string): seq<(string, string)> {
    match kind
    case Codex => [("CODEX_HOME", home)]
    case Claude => [("CLAUDE_CONFIG_DIR", home)]
    case Gemini => [("GEMINI_HOME", home)]
    case Generic => []
  }

  function SetEnv(profile: Profile, kind: Provider, home: string): seq<(string, string)> {
    [("TZ", profile.timezone),
     ("LANG", profile.lang),
     ("LC_ALL", profile.lcAll),
     ("LC_TIME", if profile.lcTime.Some? then profile.lcTime.value else profile.lcAll),
     ("USER", profile.username),
     ("LOGNAME", profile.username),
     ("HOSTNAME", profile.hostname)]
    + HomeEntry(kind, home)
  }

  // ---------------------------------------------------------------------------
  // Sorting
  // ---------------------------------------------------------------------------

  /** The order of strings. */
  predicate Below(a: string, b: string) {
    b != "" && (a == "" || a[0] < b[0] || (a[0] == b[0] && Below(a[1..], b[1..])))
  }

  lemma {:induction false} BelowIsTransitive(a: string, b: string, c: string)
    requires Below(a, b) && Below(b, c)
    ensures Below(a, c)
  {
    if a != "" && a[0] == b[0] == c[0] {
      BelowIsTransitive(a[1..], b[1..], c[1..]);
    }
  }

  lemma {:induction false} BelowIsTotal(a: string, b: string)
    ensures a == b || Below(a, b) || Below(b, a)
  {
    if a != "" && b != "" && a[0] == b[0] {
      BelowIsTotal(a[1..], b[1..]);
      assert a == [a[0]] + a[1..] && b == [b[0]] + b[1..];
    }
  }

  /** Sorted, and nothing twice. */
  predicate Ascending(names: seq<string>) {
    forall i, j :: 0 <= i < j < |names| ==> Below(names[i], names[j])
  }

  function Inserted(names: seq<string>, name: string): seq<string> {
    if names == [] then [name]
    else if names[0] == name then names
    else if Below(name, names[0]) then [name] + names
    else [names[0]] + Inserted(names[1..], name)
  }

  lemma {:induction false} InsertedKeeps(names: seq<string>, name: string)
    requires Ascending(names)
    ensures Ascending(Inserted(names, name))
    ensures forall x :: x in Inserted(names, name) <==> x == name || x in names
  {
    if names != [] {
      var first, more := names[0], names[1..];
      assert names == [first] + more;
      if Below(name, first) {
        forall i | 0 < i < |names|
          ensures Below(name, names[i])
        {
          BelowIsTransitive(name, first, names[i]);
        }
      } else if first != name {
        BelowIsTotal(first, name);
        InsertedKeeps(more, name);
        var rest := Inserted(more, name);
        forall i | 0 <= i < |rest|
          ensures Below(first, rest[i])
        {
          assert rest[i] in rest;
          if rest[i] != name {
            var k :| 0 <= k < |more| && more[k] == rest[i];
            assert names[k + 1] == rest[i];
          }
        }
      }
    }
  }

  /** `sort` and `dedup` */
  method SortDistinct(names: seq<string>) returns (sorted: seq<string>)
    ensures Ascending(sorted)
    ensures forall x :: x in sorted <==> x in names
  {
    sorted := [];
    for k := 0 to |names|
      invariant Ascending(sorted)
      invariant forall x :: x in sorted <==> x in names[..k]
    {
      InsertedKeeps(sorted, names[k]);
      sorted := Inserted(sorted, names[k]);
      assert names[..k + 1] == names[..k] + [names[k]];
    }
    assert names[..|names|] == names;
  }

  // ---------------------------------------------------------------------------
  // The plan
  // ---------------------------------------------------------------------------

  /** Everything that must go: the list, and what was inherited of its kind. */
  predicate MustGo(inherited: seq<string>, key: string) {
    key in CARRIER_UNSET || (key in inherited && IsCarrierKey(key))
  }

  /** The plan for a profile, under a host with these variables. */
  ghost predicate IsPlanFor(plan: LaunchPlan, profile: Profile, kind: Provider, home: string, inherited: seq<string>) {
    && plan.profileId == profile.id
    && plan.setEnv == SetEnv(profile, kind, home)
    && Ascending(plan.unsetEnv)
    && forall key :: key in plan.unsetEnv <==> MustGo(inherited, key)
  }

  /** `materialize` */
  method Materialise(profile: Profile, kind: Provider, home: string, inherited: seq<string>) returns (plan: LaunchPlan)
    ensures IsPlanFor(plan, profile, kind, home, inherited)
  {
    var unset := CARRIER_UNSET;
    for k := 0 to |inherited|
      invariant forall key :: key in unset <==> MustGo(inherited[..k], key)
    {
      assert inherited[..k + 1] == inherited[..k] + [inherited[k]];
      if IsCarrierKey(inherited[k]) && inherited[k] !in unset {
        unset := unset + [inherited[k]];
      }
    }
    assert inherited[..|inherited|] == inherited;
    unset := SortDistinct(unset);
    plan := LaunchPlan(profile.id, SetEnv(profile, kind, home), unset);
  }

  /** Which variables a plan sets, and to what. */
  ghost predicate Gets(profile: Profile, kind: Provider, home: string, name: string, value: string) {
    || (name == "TZ" && value == profile.timezone)
    || (name == "LANG" && value == profile.lang)
    || (name == "LC_ALL" && value == profile.lcAll)
    || (name == "LC_TIME" && (profile.lcTime == Some(value) || (profile.lcTime == None && value == profile.lcAll)))
    || (name in {"USER", "LOGNAME"} && value == profile.username)
    || (name == "HOSTNAME" && value == profile.hostname)
    || (kind == Codex && name == "CODEX_HOME" && value == home)
    || (kind == Claude && name == "CLAUDE_CONFIG_DIR" && value == home)
    || (kind == Gemini && name == "GEMINI_HOME" && value == home)
  }

  lemma SetEnvIff(profile: Profile, kind: Provider, home: string, name: string, value: string)
    ensures (name, value) in SetEnv(profile, kind, home) <==> Gets(profile, kind, home, name, value)
  {
  }

  /** No variable is set twice, so the order does not matter. */
  lemma SetOnce(profile: Profile, kind: Provider, home: string, i: nat, j: nat)
    requires i < j < |SetEnv(profile, kind, home)|
    ensures SetEnv(profile, kind, home)[i].0 != SetEnv(profile, kind, home)[j].0
  {
  }

  /** Which variables a plan unsets: the ones listed, and of those inherited the ones
      that give the carrier away. */
  lemma MustGoIff(inherited: seq<string>, key: string)
    ensures MustGo(inherited, key) <==>
            || key in {"WSL_DISTRO_NAME", "WSL_INTEROP", "WSLENV", "WSL2_GUI_APPS_ENABLED", "WSL_HOST", "WSL_DISTRO",
                       "AGS_ENV_PROFILE", "AGS_BACKEND_KIND", "AGS_AGENT_PROVIDER"}
            || (key in inherited && key in {"WT_SESSION", "AGS_BACKEND_KIND"})
            || (key in inherited && |key| >= 3 && key[..3] == "WSL")
            || (key in inherited && |key| >= 8 && key[..8] == "AGS_ENV_")
  {
  }

  /** Which profile ids load. */
  lemma ValidIdIff(id: string)
    ensures ValidId(id) <==>
            && (exists i :: 0 <= i < |id| && !IsSpace(id[i]))
            && forall i :: 0 <= i < |id| ==> 32 <= id[i] as int < 127 || 160 <= id[i] as int
  {
  }

  lemma SetNamesAreValid(profile: Profile, kind: Provider, home: string)
    ensures forall k :: 0 <= k < |SetEnv(profile, kind, home)| ==> IsName(SetEnv(profile, kind, home)[k].0)
  {
  }

  lemma CarrierNamesAreValid()
    ensures forall k :: 0 <= k < |CARRIER_UNSET| ==> IsName(CARRIER_UNSET[k])
  {
  }

  /** The script of a profile that loads does what its plan says if and only if
      every inherited variable it has to unset has a name that a shell can unset. */
  lemma MaterialisedWorksIff(plan: LaunchPlan, profile: Profile, kind: Provider, home: string, inherited: seq<string>)
    requires IsPlanFor(plan, profile, kind, home, inherited) && ValidId(profile.id)
    ensures Works(plan) <==> forall key :: key in inherited && IsCarrierKey(key) ==> IsName(key)
  {
    OneLineIdIsSafe(plan);
    SetNamesAreValid(profile, kind, home);
    CarrierNamesAreValid();
    if NamesAreValid(plan) {
      forall key | key in inherited && IsCarrierKey(key)
        ensures IsName(key)
      {
        assert MustGo(inherited, key);
        var k :| 0 <= k < |plan.unsetEnv| && plan.unsetEnv[k] == key;
      }
    }
    if forall key :: key in inherited && IsCarrierKey(key) ==> IsName(key) {
      forall k | 0 <= k < |plan.unsetEnv|
        ensures IsName(plan.unsetEnv[k])
      {
        assert plan.unsetEnv[k] in plan.unsetEnv;
      }
    }
  }

  /** It need not: a process may inherit a variable whose name has a blank in it. */
  lemma BlankInNameBreaksScript(plan: LaunchPlan, profile: Profile, kind: Provider, home: string,
                                inherited: seq<string>)
    requires IsPlanFor(plan, profile, kind, home, inherited) && ValidId(profile.id)
    requires "WSL x" in inherited
    ensures !Works(plan)
  {
    MaterialisedWorksIff(plan, profile, kind, home, inherited);
    var key := "WSL x";
    assert key[..3] == "WSL" && key[3] == ' ';
    assert IsCarrierKey(key) && !IsName(key);
  }
}
