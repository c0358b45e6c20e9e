/**
 * PluginConfig: a plugin's declared metadata, the validation of a user's configuration against it,
 * and the start-up hook that hands the plugin's contributions to the registry.
 */
module PluginConfig {
  import opened Wrappers
  import opened Navigation
  import opened Registry

  /** A parsed NetBox version. Versions are totally ordered; only their order matters here. */
  type Version = nat

  /** The five class attributes whose declared type `validate` checks, in the order it checks them. */
  datatype StructuralSetting = CachingConfig | DefaultSettings | InstalledApps | Middleware | RequiredSettings

  const SettingValidations: seq<StructuralSetting> :=
    [CachingConfig, DefaultSettings, InstalledApps, Middleware, RequiredSettings]

  /** A class attribute as the plugin author declared it: of the expected type (dict or list), or of another. */
  datatype Declared<T> = WellTyped(value: T) | IllTyped

  /** The class attributes of a PluginConfig subclass that `validate` reads; `V` is the type of setting values. */
  datatype Plugin<V> = Plugin(
    name: string,
    minVersion: Option<Version>,
    maxVersion: Option<Version>,
    cachingConfig: Declared<map<string, map<string, string>>>,
    defaultSettings: Declared<map<string, V>>,
    installedApps: Declared<seq<string>>,
    middleware: Declared<seq<string>>,
    requiredSettings: Declared<seq<string>>)

  /** A plugin that overrides none of the attributes PluginConfig declares. */
  function DefaultPlugin<V>(name: string): Plugin<V> {
    Plugin(name, None, None, WellTyped(map["*" := map["ops" := "all"]]),
           WellTyped(map[]), WellTyped([]), WellTyped([]), WellTyped([]))
  }

  /** The PluginImproperlyConfigured errors `validate` raises. */
  datatype ConfigError =
    | BelowMinVersion(minimum: Version)
    | AboveMaxVersion(maximum: Version)
    | IllTypedSetting(setting: StructuralSetting)
    | MissingRequiredSetting(name: string)

  predicate IsWellTyped<V>(p: Plugin<V>, setting: StructuralSetting) {
    match setting
    case CachingConfig => p.cachingConfig.WellTyped?
    case DefaultSettings => p.defaultSettings.WellTyped?
    case InstalledApps => p.installedApps.WellTyped?
    case Middleware => p.middleware.WellTyped?
    case RequiredSettings => p.requiredSettings.WellTyped?
  }

  /** The version error `validate` raises, if any: the minimum bound is checked before the maximum. */
  function VersionFault<V>(p: Plugin<V>, current: Version): (r: Option<ConfigError>)
    ensures r.None? <==> (p.minVersion.None? || p.minVersion.value <= current) &&
                         (p.maxVersion.None? || current <= p.maxVersion.value)
    ensures r.Some? ==> r.value.BelowMinVersion? || r.value.AboveMaxVersion?
  {
    if p.minVersion.Some? && current < p.minVersion.value then Some(BelowMinVersion(p.minVersion.value))
    else if p.maxVersion.Some? && current > p.maxVersion.value then Some(AboveMaxVersion(p.maxVersion.value))
    else None
  }

  /** The number of leading settings in `settings` that are declared with their expected type. */
  function WellTypedCount<V>(p: Plugin<V>, settings: seq<StructuralSetting>): (n: nat)
    ensures n <= |settings|
    ensures forall i :: 0 <= i < n ==> IsWellTyped(p, settings[i])
    ensures n < |settings| ==> !IsWellTyped(p, settings[n])
  {
    if settings == [] || !IsWellTyped(p, settings[0]) then 0 else 1 + WellTypedCount(p, settings[1..])
  }

  /** The number of leading required settings present in the user's configuration. */
  function PresentCount<V>(required: seq<string>, user: map<string, V>): (n: nat)
    ensures n <= |required|
    ensures forall i :: 0 <= i < n ==> required[i] in user
    ensures n < |required| ==> required[n] !in user
  {
    if required == [] || required[0] !in user then 0 else 1 + PresentCount(required[1..], user)
  }

  /** The user's configuration with every default it lacks filled in. */
  function MergeDefaults<V>(user: map<string, V>, defaults: map<string, V>): (r: map<string, V>)
    ensures r.Keys == user.Keys + defaults.Keys
    ensures forall k :: k in user ==> r[k] == user[k]
    ensures forall k :: k in defaults && k !in user ==> r[k] == defaults[k]
  {
    defaults + user
  }

  /**
   * What PluginConfig.validate(user_config, netbox_version) does, as a value: the merged configuration
   * it leaves in `user_config`, or the error it raises (leaving `user_config` untouched).
   */
  function Validated<V>(p: Plugin<V>, current: Version, user: map<string, V>): Result<map<string, V>, ConfigError> {
    var versionFault := VersionFault(p, current);
    if versionFault.Some? then Failure(versionFault.value)
    else
      var typed := WellTypedCount(p, SettingValidations);
      if typed < |SettingValidations| then Failure(IllTypedSetting(SettingValidations[typed]))
      else
        assert IsWellTyped(p, SettingValidations[1]) && IsWellTyped(p, SettingValidations[4]);
        var required := p.requiredSettings.value;
        var present := PresentCount(required, user);
        if present < |required| then Failure(MissingRequiredSetting(required[present]))
        else Success(MergeDefaults(user, p.defaultSettings.value))
  }

  /** The plugin's entry of PLUGINS_CONFIG: a dict that `validate` updates in place. */
  class UserConfig<V> {
    var entries: map<string, V>

    constructor (entries: map<string, V>)
      ensures this.entries == entries
    {
      this.entries := entries;
    }
  }

  /** PluginConfig.validate(user_config, netbox_version) */
  method Validate<V>(p: Plugin<V>, netboxVersion: Version, userConfig: UserConfig<V>) returns (outcome: Outcome<ConfigError>)
    modifies userConfig
    ensures match Validated(p, netboxVersion, old(userConfig.entries))
            case Success(merged) => outcome == Pass && userConfig.entries == merged
            case Failure(e) => outcome == Fail(e) && userConfig.entries == old(userConfig.entries)
  {
    // Enforce version constraints
    if p.minVersion.Some? && netboxVersion < p.minVersion.value {
      return Fail(BelowMinVersion(p.minVersion.value));
    }
    if p.maxVersion.Some? && netboxVersion > p.maxVersion.value {
      return Fail(AboveMaxVersion(p.maxVersion.value));
    }

    // Validate the declared types of the structural settings
    for i := 0 to |SettingValidations|
      invariant forall j :: 0 <= j < i ==> IsWellTyped(p, SettingValidations[j])
    {
      if !IsWellTyped(p, SettingValidations[i]) {
        return Fail(IllTypedSetting(SettingValidations[i]));
      }
    }
    assert IsWellTyped(p, SettingValidations[1]) && IsWellTyped(p, SettingValidations[4]);

    // Validate the required settings
    var required := p.requiredSettings.value;
    for i := 0 to |required|
      invariant forall j :: 0 <= j < i ==> required[j] in userConfig.entries
    {
      if required[i] !in userConfig.entries {
        return Fail(MissingRequiredSetting(required[i]));
      }
    }

    // Apply default configuration values
    var defaults := p.defaultSettings.value;
    var pending := defaults.Keys;
    while pending != {}
      invariant pending <= defaults.Keys
      invariant userConfig.entries.Keys == old(userConfig.entries).Keys + (defaults.Keys - pending)
      invariant forall k :: k in old(userConfig.entries) ==> userConfig.entries[k] == old(userConfig.entries)[k]
      invariant forall k :: k in defaults.Keys - pending && k !in old(userConfig.entries) ==>
                             userConfig.entries[k] == defaults[k]
      decreases pending
    {
      var setting :| setting in pending;
      if setting !in userConfig.entries {
        userConfig.entries := userConfig.entries[setting := defaults[setting]];
      }
      pending := pending - {setting};
    }
    assert userConfig.entries == MergeDefaults(old(userConfig.entries), defaults);
    return Pass;
  }

  /** Outside its bounds the host version is rejected, the minimum bound being reported first. */
  lemma VersionOutOfBoundsFails<V>(p: Plugin<V>, current: Version, user: map<string, V>)
    ensures p.minVersion.Some? && current < p.minVersion.value ==>
              Validated(p, current, user) == Failure(BelowMinVersion(p.minVersion.value))
    ensures (p.minVersion.None? || p.minVersion.value <= current) && p.maxVersion.Some? && current > p.maxVersion.value ==>
              Validated(p, current, user) == Failure(AboveMaxVersion(p.maxVersion.value))
  {
  }

  /** Within its bounds, or with no bounds declared, the host version raises no version error. */
  lemma VersionWithinBoundsPasses<V>(p: Plugin<V>, current: Version, user: map<string, V>)
    requires p.minVersion.None? || p.minVersion.value <= current
    requires p.maxVersion.None? || current <= p.maxVersion.value
    ensures Validated(p, current, user).Failure? ==>
              !Validated(p, current, user).error.BelowMinVersion? && !Validated(p, current, user).error.AboveMaxVersion?
  {
  }

  /**
   * A required setting missing from the user's configuration makes validation fail, even when a default
   * exists for it: the required check runs before the defaults are merged.
   */
  lemma MissingRequiredFails<V>(p: Plugin<V>, current: Version, user: map<string, V>, setting: string)
    requires p.requiredSettings.WellTyped? && setting in p.requiredSettings.value && setting !in user
    ensures Validated(p, current, user).Failure?
  {
  }

  /** Once the version and the declared types pass, the error raised names the first missing required setting, in declared order. */
  lemma MissingRequiredIsReportedInOrder<V>(p: Plugin<V>, current: Version, user: map<string, V>, i: nat)
    requires VersionFault(p, current).None?
    requires forall s :: s in SettingValidations ==> IsWellTyped(p, s)
    requires p.requiredSettings.WellTyped? && i < |p.requiredSettings.value|
    requires p.requiredSettings.value[i] !in user
    requires forall j :: 0 <= j < i ==> p.requiredSettings.value[j] in user
    ensures Validated(p, current, user) == Failure(MissingRequiredSetting(p.requiredSettings.value[i]))
  {
  }

  /**
   * After a successful validation every required setting and every default setting is present; supplied
   * values are kept, missing defaults take their default value, and no other key is added.
   */
  lemma ValidatedConfigIsComplete<V>(p: Plugin<V>, current: Version, user: map<string, V>)
    requires Validated(p, current, user).Success?
    ensures p.requiredSettings.WellTyped? && p.defaultSettings.WellTyped?
    ensures var merged := Validated(p, current, user).value;
            && (forall s :: s in p.requiredSettings.value ==> s in user && s in merged)
            && merged.Keys == user.Keys + p.defaultSettings.value.Keys
            && (forall k :: k in user ==> merged[k] == user[k])
            && (forall k :: k in p.defaultSettings.value && k !in user ==> merged[k] == p.defaultSettings.value[k])
  {
    assert WellTypedCount(p, SettingValidations) == |SettingValidations|;
    assert IsWellTyped(p, SettingValidations[1]) && IsWellTyped(p, SettingValidations[4]);
    var required := p.requiredSettings.value;
    assert PresentCount(required, user) == |required|;
    forall s | s in required
      ensures s in user
    {
      var i :| 0 <= i < |required| && required[i] == s;
    }
  }

  /** Validating the configuration a successful validation left behind succeeds again and changes nothing. */
  lemma ValidateIsIdempotent<V>(p: Plugin<V>, current: Version, user: map<string, V>)
    requires Validated(p, current, user).Success?
    ensures Validated(p, current, Validated(p, current, user).value) == Validated(p, current, user)
  {
    var merged := Validated(p, current, user).value;
    ValidatedConfigIsComplete(p, current, user);
    var required := p.requiredSettings.value;
    assert PresentCount(required, user) == |required|;
    assert PresentCount(required, merged) == |required|;
    assert MergeDefaults(merged, p.defaultSettings.value) == merged;
  }

  /** A plugin that overrides no attribute accepts every configuration and leaves it unchanged. */
  lemma DefaultPluginAcceptsAnything<V>(name: string, current: Version, user: map<string, V>)
    ensures Validated(DefaultPlugin<V>(name), current, user) == Success(user)
  {
    var p := DefaultPlugin<V>(name);
    assert WellTypedCount(p, SettingValidations) == |SettingValidations|;
    assert MergeDefaults(user, map[]) == user;
  }

  /** What import_object found at each of the plugin's integration paths (None: no such module or attribute). */
  datatype Integrations = Integrations(
    templateExtensions: Option<seq<Contribution>>,
    graphqlTypes: Option<seq<Contribution>>,
    menuItems: Option<seq<MenuEntry>>,
    customValidators: Option<seq<Contribution>>)

  /** The registry after PluginConfig.ready(), and the TypeError it propagates, if any. */
  function Readied(s: Stores, verboseName: string, found: Integrations): (Stores, Outcome<RegistrationError>) {
    var (s1, o1) := if found.templateExtensions.Some? then WithTemplateExtensions(s, found.templateExtensions.value) else (s, Pass);
    if o1.Fail? then (s1, o1) else
    var (s2, o2) := if found.graphqlTypes.Some? then WithGraphQLTypes(s1, found.graphqlTypes.value) else (s1, Pass);
    if o2.Fail? then (s2, o2) else
    var (s3, o3) := if found.menuItems.Some? then WithMenuItems(s2, verboseName, found.menuItems.value) else (s2, Pass);
    if o3.Fail? then (s3, o3) else
    if found.customValidators.Some? then WithCustomValidators(s3, found.customValidators.value) else (s3, Pass)
  }

  /** PluginConfig.ready(): register each contribution list the plugin provides, in a fixed order. */
  method Ready(registry: PluginRegistry, verboseName: string, found: Integrations) returns (outcome: Outcome<RegistrationError>)
    modifies registry
    ensures (registry.Snapshot(), outcome) == Readied(old(registry.Snapshot()), verboseName, found)
  {
    outcome := Pass;
    if found.templateExtensions.Some? {
      outcome := registry.RegisterTemplateExtensions(found.templateExtensions.value);
      if outcome.Fail? {
        return;
      }
    }
    if found.graphqlTypes.Some? {
      outcome := registry.RegisterGraphQLTypes(found.graphqlTypes.value);
      if outcome.Fail? {
        return;
      }
    }
    if found.menuItems.Some? {
      outcome := registry.RegisterMenuItems(verboseName, found.menuItems.value);
      if outcome.Fail? {
        return;
      }
    }
    if found.customValidators.Some? {
      outcome := registry.RegisterCustomValidators(found.customValidators.value);
    }
  }

  /** When ready() completes, the plugin's menu section holds exactly the menu list it provides. */
  lemma ReadyRegistersMenuSection(s: Stores, verboseName: string, found: Integrations)
    requires found.menuItems.Some?
    requires Readied(s, verboseName, found).1 == Pass
    ensures verboseName in Readied(s, verboseName, found).0.menuItems
    ensures Readied(s, verboseName, found).0.menuItems[verboseName] == found.menuItems.value
  {
  }

  /** A plugin that provides no contribution list leaves the registry as it was. */
  lemma ReadyWithoutIntegrations(s: Stores, verboseName: string)
    ensures Readied(s, verboseName, Integrations(None, None, None, None)) == (s, Pass)
  {
  }
}
