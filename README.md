# NetBox plugin registration, modelled in Dafny

This project models the plugin facade of NetBox's `extras.plugins` package. It covers three parts.

- `PluginConfig.validate` checks a plugin's declared metadata and the user's configuration for it. It checks the NetBox version against the optional minimum and maximum bounds. It checks the declared types of five class attributes and rejects a configuration that lacks a required setting. Then it fills the missing default settings into the user's configuration dict, in place.
- The process-wide plugin registry has four stores, filled at start-up by four registration functions.
  - Template extensions and custom validators go into per-model lists (a `defaultdict(list)`).
  - GraphQL types go into one flat list.
  - Menu items go into a dict from section name to the list registered last for that section.
  - The first three registrations append one entry at a time and stop at the first rejected entry. Entries before it stay registered. The menu registration checks every item and every button before it stores anything.
- The `PluginMenuItem` and `PluginMenuButton` constructors apply their class-level defaults and reject bad arguments.

Files:

- `wrappers.dfy`: the `Option`, `Result` and `Outcome` datatypes. A raised exception is a `Failure` or a `Fail`.
- `navigation.dfy`: menu buttons and menu items as values, with their constructors.
- `registry.dfy`: the contributed-object datatype and the specification functions for the four stores. It also holds the `PluginRegistry` class, whose four registration methods loop over their input and update its fields in place, and the lemmas about the stores.
- `plugin_config.dfy`: the plugin descriptor and `Validated`, the specification of `validate`. It also holds `Validate`, which updates a `UserConfig` object in place, and `Ready`, the start-up hook.

Modelling choices:

- A parsed version is a `nat`, and only the order of versions matters.
- Each class attribute that `validate` type-checks is `WellTyped(value)` or `IllTyped`.
- `inspect.isclass`, `issubclass` and `model` / `_meta.model` become three fields of `Contribution`: `isClass`, `bases` (the set of the three registrable base classes the object derives from) and `model: Option<string>`.
- `isinstance(x, PluginMenuItem)` and `isinstance(x, PluginMenuButton)` become the constructors of `MenuEntry` and `ButtonSlot`.
- `ButtonColorChoices` is a `ColorChoices` parameter. It carries the allowed values and the default.
- Registration of template extensions, GraphQL types and custom validators is fail-fast: the entries before the rejected one stay registered, and the model follows that.

## Model

| member | source | states |
|---|---|---|
| `PluginConfig.VersionFault` | netbox/extras/plugins/__init__.py:96-108 | No version error exactly when each bound that is set holds (minimum ≤ current ≤ maximum); any error is a version error. |
| `PluginConfig.VersionOutOfBoundsFails` | netbox/extras/plugins/__init__.py:96-108 | A host version below a set minimum fails with that minimum. Otherwise, a host version above a set maximum fails with that maximum. |
| `PluginConfig.VersionWithinBoundsPasses` | netbox/extras/plugins/__init__.py:96-108 | Within the bounds, or with no bound set, validation raises no version error. |
| `PluginConfig.WellTypedCount` | netbox/extras/plugins/__init__.py:113-126 | The settings are checked in their fixed order. The result is the first one whose declared type is wrong, or the end of the list. |
| `PluginConfig.PresentCount` | netbox/extras/plugins/__init__.py:129-134 | The result is the first required setting absent from the user's configuration, or the end of the list. |
| `PluginConfig.MergeDefaults` | netbox/extras/plugins/__init__.py:137-139 | The merged keys are the user's keys plus the default keys. Supplied values are unchanged, and missing keys take their default. |
| `PluginConfig.Validate` | netbox/extras/plugins/__init__.py:89-139 | The method's outcome is that of `Validated`. On success the dict holds the merged configuration. On any error the dict is unchanged. |
| `PluginConfig.MissingRequiredFails` | netbox/extras/plugins/__init__.py:129-139 | A required setting missing from the user's configuration makes validation fail, even if a default exists for it. |
| `PluginConfig.MissingRequiredIsReportedInOrder` | netbox/extras/plugins/__init__.py:129-134 | Once the version and the types pass, the error names the first missing required setting in declared order. |
| `PluginConfig.ValidatedConfigIsComplete` | netbox/extras/plugins/__init__.py:128-139 | After success, every required setting was supplied and is present. Every default key is present, supplied values are kept, missing ones take the default, and no other key is added. |
| `PluginConfig.ValidateIsIdempotent` | netbox/extras/plugins/__init__.py:137-139 | Validating the configuration that a successful validation left behind succeeds again with the same configuration. |
| `PluginConfig.DefaultPluginAcceptsAnything` | netbox/extras/plugins/__init__.py:39-59 | A plugin that keeps every PluginConfig default accepts any configuration and leaves it unchanged. |
| `PluginConfig.Ready` | netbox/extras/plugins/__init__.py:68-87 | The new registry and the error raised are exactly `Readied` of the old registry. `Readied` passes each contribution list that was found, in fixed order, to its registration, and the first error stops the rest. |
| `PluginConfig.ReadyRegistersMenuSection` | netbox/extras/plugins/__init__.py:79-82 | When ready() completes, the plugin's section holds exactly the menu list it provides. |
| `PluginConfig.ReadyWithoutIntegrations` | netbox/extras/plugins/__init__.py:68-87 | A plugin that provides no contribution list leaves the registry unchanged. |
| `Registry.PluginRegistry.constructor` | netbox/extras/plugins/__init__.py:16-19 | All four stores start empty. |
| `Registry.ContributionFault` | netbox/extras/plugins/__init__.py:211-217 | No error exactly for a class that derives from the expected base and has a model. Otherwise the error comes from the first failing check: instance, then subclass, then model. |
| `Registry.AdmittedCount` | netbox/extras/plugins/__init__.py:211-219 | Every entry before the result passes the checks, and the entry at the result (if any) fails them. |
| `Registry.OfModel` | netbox/extras/plugins/__init__.py:219 | The result holds only entries of the list bound to the model, and every such entry. |
| `Registry.OfModelConcat` | netbox/extras/plugins/__init__.py:219 | The entries of a concatenation bound to a model are those of the first part followed by those of the second, so input order is kept. |
| `Registry.OfModelSingleton` | netbox/extras/plugins/__init__.py:219 | A single entry is kept exactly when it is bound to the model. |
| `Registry.GroupedListFor` | netbox/extras/plugins/__init__.py:219 | `Grouped` (the appends at this line, folded over a list of entries that all have a model) makes each model's list its old list followed by that model's entries, in input order. |
| `Registry.GroupedKeys` | netbox/extras/plugins/__init__.py:219 | A model key is present afterwards exactly when it was present before or gained an entry, as with a `defaultdict`. |
| `Registry.NoEntryOfModel` | netbox/extras/plugins/__init__.py:219 | A list with no entry for a model adds nothing to that model's list. |
| `Registry.GroupedConcat` | netbox/extras/plugins/__init__.py:219 | Grouping a concatenation of entries that all have a model is grouping the first part and then the second. Admission checks are not involved here. |
| `Registry.AdmittedCountConcat` | netbox/extras/plugins/__init__.py:211-217 | After a prefix whose entries all pass the checks, the fail-fast loop stops where it would stop on the remainder alone. |
| `Registry.RegistrationConcat` | netbox/extras/plugins/__init__.py:211-219 | When every entry of `xs` passes, registering `xs + ys` gives the same store (`GroupedAdmitted`) and the same error (`RegistrationOutcome`) as registering `xs` and then `ys`. |
| `Registry.RegistrationStopsInPrefix` | netbox/extras/plugins/__init__.py:211-219 | With a rejected entry in `xs`, registering `xs + ys` stops at the same index as registering `xs` alone, with the same store and the same error, so `ys` is never reached. |
| `Registry.GraphQLRegistrationConcat` | netbox/extras/plugins/__init__.py:229-237 | The same for the flat GraphQL list: when every entry of `xs` passes, registering `xs + ys` equals registering `xs` and then `ys`. |
| `Registry.PluginRegistry.RegisterTemplateExtensions` | netbox/extras/plugins/__init__.py:206-219 | The new registry and the error raised are exactly `WithTemplateExtensions` of the old registry. Only the admitted prefix is appended, and no other store changes. |
| `Registry.PluginRegistry.RegisterGraphQLTypes` | netbox/extras/plugins/__init__.py:222-237 | The new registry and the error raised are exactly `WithGraphQLTypes`. The admitted prefix is appended to the flat list. |
| `Registry.PluginRegistry.RegisterMenuItems` | netbox/extras/plugins/__init__.py:290-302 | The new registry and the error raised are exactly `WithMenuItems`. |
| `Registry.PluginRegistry.RegisterCustomValidators` | netbox/extras/plugins/__init__.py:343-356 | The new registry and the error raised are exactly `WithCustomValidators`. |
| `Registry.FailFastKeepsPrefix` | netbox/extras/plugins/__init__.py:211-219 | If entry i is the first rejected entry, `RegistrationOutcome` (the error of the loop) is raised for it. `GroupedAdmitted` (the store after the loop) gives each model's list exactly its entries among those before i. |
| `Registry.AllAdmittedAppendsAll` | netbox/extras/plugins/__init__.py:211-219 | If every entry passes, `RegistrationOutcome` raises nothing and `GroupedAdmitted` appends every entry to its model's list in order. |
| `Registry.PassIffAllAdmissible` | netbox/extras/plugins/__init__.py:211-217 | A registration raises nothing exactly when every entry is a class of the expected base with a model. |
| `Registry.RegisteringTwiceAppendsTwice` | netbox/extras/plugins/__init__.py:348-356 | Registering the same valid list twice appends each model's entries twice. There is no de-duplication. |
| `Registry.OtherModelsUntouched` | netbox/extras/plugins/__init__.py:219 | The list of a model that no entry names keeps its contents and its presence. |
| `Registry.GraphQLFailFastKeepsPrefix` | netbox/extras/plugins/__init__.py:229-237 | If i entries pass, the flat list gains exactly those entries, in order. The error is for entry i if it exists. |
| `Registry.ButtonCount` | netbox/extras/plugins/__init__.py:298-300 | The buttons before the result are menu buttons, and the one at the result (if any) is not. |
| `Registry.WellFormedCount` | netbox/extras/plugins/__init__.py:295-300 | The entries before the result are menu items whose buttons are all menu buttons, and the one at the result (if any) is not. |
| `Registry.MenuFault` | netbox/extras/plugins/__init__.py:295-300 | There is no error exactly when every entry is a menu item and every button is a menu button. |
| `Registry.MenuFaultNamesFirstOffender` | netbox/extras/plugins/__init__.py:295-300 | The error names the first offending object in traversal order: a non-item entry, or the first non-button of an item's buttons. |
| `Registry.MenuRegistrationAllOrNothing` | netbox/extras/plugins/__init__.py:295-302 | On failure the registry is unchanged. On success exactly the one section maps to the given list. Failure happens exactly when some entry is malformed. |
| `Registry.MenuLastWriteWins` | netbox/extras/plugins/__init__.py:302 | After two successful registrations, the section holds the second list and other sections keep their lists. |
| `Navigation.NewMenuItem` | netbox/extras/plugins/__init__.py:252-265 | Permissions that are not a list or tuple raise TypeError first, then buttons that are not. Omitted arguments default to empty, and the link and text are kept. |
| `Navigation.NewMenuButton` | netbox/extras/plugins/__init__.py:273-287 | Permissions that are not a list or tuple raise TypeError. Then a colour outside the choices raises ValueError. The colour defaults to DEFAULT and permissions default to empty. A built button's colour is allowed. |

## Left out

- `PluginTemplateExtension.render` and its four page and button slots are left out. They render Django templates or raise NotImplementedError.
- `PluginCustomValidator.validation_error` and `clean` are left out. They are a Django ValidationError wrapper and a stub.
- Parsing of version strings by `packaging.version` is left out, and so are its parse errors. Versions arrive already parsed, as naturals.
- `import_object` is left out. What it finds at each integration path is the `Integrations` parameter of `Ready`, and import errors other than "not found" are not modelled. `self.verbose_name` is a parameter of `Ready`.
- The contents of `ButtonColorChoices` are left out. The choices are a parameter.
- Exception messages are left out. Only the error kind and the object or setting it names are kept.
- The plugin metadata attributes (author, author_email, description, version, base_url) and the integration path strings are left out. The modelled core does not read them.
- Aliasing is left out. `register_menu_items` stores the caller's list object itself. The model stores its value, so later mutation of that list by the plugin is not reflected.
- `Navigation.NewMenuItem`: the stored permissions and buttons keep their elements but not whether they came as a list or a tuple.
- `PluginConfig.Validate`: only the declared type of the five class attributes is modelled. A user configuration that is not a dict is not.
- Insertion order of Python dicts is left out. `registry['plugin_menu_items']` keeps its sections in the order they were first registered, and `user_config` gains the missing defaults at its end in `default_settings` order. A Dafny `map` keeps neither order, so the model does not keep the order of sections or of keys. No modelled operation depends on that order.
